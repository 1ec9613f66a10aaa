/** After both passes a side shows, under the hash of every identity, exactly the row that
    grouping the facts by identity gives. */
module SideLaws {
  import opened Text
  import opened Bags
  import opened Slices
  import opened Facts
  import opened Diff
  import opened Sides
  import opened Counts

  // ---- what the program relies on

  /** The kind of a fact is part of its identity. It is whenever kinds hold no NUL. */
  ghost predicate KindsFollowKeys(pr: Printer, fs: seq<Fact>) {
    forall a, b :: a in fs && b in fs && FactKey(pr, a) == FactKey(pr, b) ==> a.kind == b.kind
  }

  lemma NulFreeKindsFollowKeys(pr: Printer, fs: seq<Fact>)
    requires forall f :: f in fs ==> NulFree(f.kind)
    ensures KindsFollowKeys(pr, fs)
  {
    forall a, b | a in fs && b in fs && FactKey(pr, a) == FactKey(pr, b) ensures a.kind == b.kind {
      FieldUnique(a.kind, FactKey(pr, a)[|a.kind| + 1..], b.kind, FactKey(pr, b)[|b.kind| + 1..]);
    }
  }

  /** No two identities that occur, and no two props that occur, share a hash. */
  ghost predicate KeysHashApart(pr: Printer, hash: Hash, fs: seq<Fact>) {
    forall a, b :: a in fs && b in fs && hash(FactKey(pr, a)) == hash(FactKey(pr, b)) ==> FactKey(pr, a) == FactKey(pr, b)
  }

  ghost predicate PropsHashApart(pr: Printer, hash: Hash, fs: seq<Fact>) {
    forall a, b :: a in fs && b in fs && hash(PropsJson(pr, a.props)) == hash(PropsJson(pr, b.props)) ==>
      PropsJson(pr, a.props) == PropsJson(pr, b.props)
  }

  // ---- the rows of a grouping, under hashed identities

  ghost function HashImage(hash: Hash, keys: set<string>): set<Word> {
    set k | k in keys :: hash(k)
  }

  /** `rows` holds the row of every group under the hash of its identity. */
  ghost predicate HashedRows(pr: Printer, hash: Hash, told: Told, g: map<string, seq<Fact>>, rows: SeenRows) {
    && rows.Keys == HashImage(hash, g.Keys)
    && forall k :: k in g ==> rows[hash(k)] == Mapped(g[k], SeenFn(pr, hash, told))
  }

  ghost function Unhash(hash: Hash, keys: set<string>, h: Word): (k: string)
    requires h in HashImage(hash, keys)
    ensures k in keys && hash(k) == h
  {
    var k :| k in keys && hash(k) == h;
    k
  }

  lemma HashedRowsExist(pr: Printer, hash: Hash, told: Told, fs: seq<Fact>, g: map<string, seq<Fact>>) returns (rows: SeenRows)
    requires IsFactGrouping(pr, fs, g) && KeysHashApart(pr, hash, fs)
    ensures HashedRows(pr, hash, told, g, rows)
  {
    hide FactKey, Mapped;
    rows := map h | h in HashImage(hash, g.Keys) :: Mapped(g[Unhash(hash, g.Keys, h)], SeenFn(pr, hash, told));
    forall k | k in g ensures rows[hash(k)] == Mapped(g[k], SeenFn(pr, hash, told)) {
      assert hash(k) in HashImage(hash, g.Keys);
      KeysApart(pr, hash, fs, Unhash(hash, g.Keys, hash(k)), k);
    }
  }

  lemma KeysApart(pr: Printer, hash: Hash, fs: seq<Fact>, j: string, k: string)
    requires KeysHashApart(pr, hash, fs)
    requires j in KeysOf(fs, KeyFn(pr)) && k in KeysOf(fs, KeyFn(pr)) && hash(j) == hash(k)
    ensures j == k
  {
    hide FactKey;
    var m :| 0 <= m < |fs| && KeyFn(pr)(fs[m]) == j;
    var n :| 0 <= n < |fs| && KeyFn(pr)(fs[n]) == k;
  }

  /** The members under a hash are the members under the identity. */
  lemma MembersUnderHash(pr: Printer, hash: Hash, fs: seq<Fact>, k: string)
    requires KeysHashApart(pr, hash, fs) && k in KeysOf(fs, KeyFn(pr))
    ensures Members(fs, HashKeyFn(pr, hash), hash(k)) == Members(fs, KeyFn(pr), k)
  {
    hide FactKey, Members;
    forall f | f in fs ensures HashKeyFn(pr, hash)(f) == hash(k) <==> KeyFn(pr)(f) == k {
      var i :| 0 <= i < |fs| && fs[i] == f;
      assert KeyFn(pr)(fs[i]) in KeysOf(fs, KeyFn(pr));
      if hash(FactKey(pr, f)) == hash(k) {
        KeysApart(pr, hash, fs, FactKey(pr, f), k);
      }
    }
    MembersSameKey(fs, HashKeyFn(pr, hash), hash(k), KeyFn(pr), k);
  }

  lemma HashedKeys(pr: Printer, hash: Hash, fs: seq<Fact>)
    ensures KeysOf(fs, HashKeyFn(pr, hash)) == HashImage(hash, KeysOf(fs, KeyFn(pr)))
  {
    hide FactKey;
    forall h ensures h in KeysOf(fs, HashKeyFn(pr, hash)) <==> h in HashImage(hash, KeysOf(fs, KeyFn(pr))) {
      if h in KeysOf(fs, HashKeyFn(pr, hash)) {
        var i :| 0 <= i < |fs| && HashKeyFn(pr, hash)(fs[i]) == h;
        assert KeyFn(pr)(fs[i]) in KeysOf(fs, KeyFn(pr));
      }
      if h in HashImage(hash, KeysOf(fs, KeyFn(pr))) {
        var k :| k in KeysOf(fs, KeyFn(pr)) && hash(k) == h;
        var i :| 0 <= i < |fs| && KeyFn(pr)(fs[i]) == k;
        assert HashKeyFn(pr, hash)(fs[i]) in KeysOf(fs, HashKeyFn(pr, hash));
      }
    }
  }

  // ---- groups: pairing by the exact order string gives the same row whatever ties do

  lemma TiedMembersLookAlike(pr: Printer, hash: Hash, told: Told, fs: seq<Fact>, a: Fact, b: Fact)
    requires pr.Valid() && KindsFollowKeys(pr, fs) && a in fs && b in fs
    requires FactKey(pr, a) == FactKey(pr, b) && IntraGroupOrder(pr, a) == IntraGroupOrder(pr, b)
    ensures SeenFn(pr, hash, told)(a) == SeenFn(pr, hash, told)(b)
  {
    OrderFixesProps(pr, a, b);
  }

  lemma SameSeen(pr: Printer, hash: Hash, told: Told, fs: seq<Fact>, k: string, t: seq<Fact>, a: seq<Ordered>, i: nat)
    requires pr.Valid() && KindsFollowKeys(pr, fs)
    requires forall f :: f in t ==> f in fs && FactKey(pr, f) == k
    requires multiset(a) == multiset(Mapped(t, OrderedFn(pr, hash, told)))
    requires i < |a| && i < |t| && a[i].ord == IntraGroupOrder(pr, t[i])
    ensures a[i].seen == SeenFn(pr, hash, told)(t[i])
  {
    hide FactKey, IntraGroupOrder, SeenFn, Printer.Valid, KindsFollowKeys;
    var b := Mapped(t, OrderedFn(pr, hash, told));
    var j := Occurrence(a[i], a, b);
    TiedMembersLookAlike(pr, hash, told, fs, t[i], t[j]);
  }

  lemma GroupRow(pr: Printer, hash: Hash, told: Told, fs: seq<Fact>, g: map<string, seq<Fact>>, k: string, keys: set<Word>,
                 groups: map<Word, seq<Member>>, names: seq<string>)
    requires pr.Valid() && KindsFollowKeys(pr, fs) && KeysHashApart(pr, hash, fs)
    requires IsFactGrouping(pr, fs, g) && k in g
    requires GroupsReady(pr, hash, told, fs, keys, groups, names) && hash(k) in groups
    ensures Mapped(groups[hash(k)], MemberSeen(names)) == Mapped(g[k], SeenFn(pr, hash, told))
  {
    hide FactKey, IntraGroupOrder, Printer.Valid, KindsFollowKeys, KeysHashApart, Members, KeysOf;
    var s, t := groups[hash(k)], g[k];
    var a, b := Mapped(s, MemberOrdered(names)), Mapped(t, OrderedFn(pr, hash, told));
    MembersUnderHash(pr, hash, fs, k);
    MappedPermutation(t, Members(fs, KeyFn(pr), k), OrderedFn(pr, hash, told));
    SameLength(a, b);
    SortedKeysUnique(a, b, ORDERED_ORD);
    RowMembers(fs, KeyFn(pr), OrderFn(pr), g, k);
    forall i | 0 <= i < |s| ensures MemberSeen(names)(s[i]) == SeenFn(pr, hash, told)(t[i]) {
      assert ORDERED_ORD(a[i]) == Mapped(a, ORDERED_ORD)[i] == Mapped(b, ORDERED_ORD)[i] == ORDERED_ORD(b[i]);
      SameSeen(pr, hash, told, fs, k, t, a, i);
    }
  }

  // ---- the flat run: keys nobody shares

  lemma {:induction false} ParallelMembers(pr: Printer, hash: Hash, told: Told, fs: seq<Fact>, recs: seq<FactRec>, names: seq<string>, h: Word)
    requires Records(pr, hash, told, fs, recs, names)
    ensures Mapped(Members(recs, REC_KEY, h), RecSeen(names)) == Mapped(Members(fs, HashKeyFn(pr, hash), h), SeenFn(pr, hash, told))
    decreases |fs|
  {
    if fs != [] {
      var last := |fs| - 1;
      ParallelMembers(pr, hash, told, fs[..last], recs[..last], names, h);
      MembersLast(fs, HashKeyFn(pr, hash), h);
      MembersLast(recs, REC_KEY, h);
      hide Members, Mapped, FactKey, PropsJson;
      MappedSnoc(Members(recs[..last], REC_KEY, h), recs[last], RecSeen(names));
      MappedSnoc(Members(fs[..last], HashKeyFn(pr, hash), h), fs[last], SeenFn(pr, hash, told));
    }
  }

  lemma SharedLast(flat: seq<FactRec>, h: Word)
    requires flat != []
    ensures var last, init := flat[|flat| - 1], flat[..|flat| - 1];
      IsShared(flat, h) <==> IsShared(init, h) || (last.key == h && exists r :: r in init && r.key == h)
  {
    var last := |flat| - 1;
    var init := flat[..last];
    if i, j :| 0 <= i < j < |init| && init[i].key == init[j].key == h {
      assert flat[i].key == flat[j].key == h;
    }
    if i, j :| 0 <= i < j < |flat| && flat[i].key == flat[j].key == h {
      assert init[i] in init;
      assert j < last ==> flat[j] == init[j];
    }
    if flat[last].key == h {
      if r :| r in init && r.key == h {
        var i :| 0 <= i < |init| && init[i] == r;
        assert flat[i].key == flat[last].key == h;
      }
    }
  }

  lemma {:induction false} SharedMeansTwo(flat: seq<FactRec>, h: Word)
    ensures IsShared(flat, h) <==> |Members(flat, REC_KEY, h)| >= 2
    decreases |flat|
  {
    if flat != [] {
      var init := flat[..|flat| - 1];
      SharedMeansTwo(init, h);
      SharedLast(flat, h);
      MembersLast(flat, REC_KEY, h);
      var m := Members(init, REC_KEY, h);
      assert forall r :: r in m <==> r in init && r.key == h;
      assert m != [] ==> m[0] in m;
      hide Members, IsShared;
    }
  }

  lemma {:induction false} DroppedSorted(flat: seq<FactRec>, shared: set<Word>)
    requires NumbersSorted(flat, REC_KEY)
    ensures NumbersSorted(Dropped(flat, REC_KEY, shared), REC_KEY)
    decreases |flat|
  {
    if flat != [] {
      var last := |flat| - 1;
      DroppedSorted(flat[..last], shared);
      var d := Dropped(flat[..last], REC_KEY, shared);
      forall n | 0 <= n < |d| ensures d[n].key <= flat[last].key {
        assert d[n] in d;
        var i :| 0 <= i < last && flat[..last][i] == d[n];
        assert REC_KEY(flat[i]) <= REC_KEY(flat[last]);
      }
    }
  }

  lemma DroppedIncreasing(flat0: seq<FactRec>, shared: set<Word>)
    requires NumbersSorted(flat0, REC_KEY)
    requires forall h :: IsShared(flat0, h) ==> h in shared
    ensures Increasing(Dropped(flat0, REC_KEY, shared))
  {
    var flat := Dropped(flat0, REC_KEY, shared);
    DroppedSorted(flat0, shared);
    hide Members, Dropped;
    forall i, j | 0 <= i < j < |flat| ensures flat[i].key < flat[j].key {
      var h := flat[i].key;
      assert REC_KEY(flat[i]) <= REC_KEY(flat[j]);
      SharedMeansTwo(flat, h);
      SharedMeansTwo(flat0, h);
      assert flat[i] in flat;
      MembersDropped(flat0, REC_KEY, shared, h);
    }
  }

  lemma ShortLists<T>(a: seq<T>, b: seq<T>)
    requires multiset(a) == multiset(b) && |a| <= 1
    ensures a == b
  {
    SameLength(a, b);
    if a != [] {
      var i := Occurrence(a[0], a, b);
    }
  }

  /** What one side holds after sorting and both passes. */
  ghost predicate SideReduced(pr: Printer, hash: Hash, told: Told, fs: seq<Fact>, recs: seq<FactRec>, flat0: seq<FactRec>, flat: seq<FactRec>,
                              groups: map<Word, seq<Member>>, names: seq<string>, shared: set<Word>) {
    && Records(pr, hash, told, fs, recs, names)
    && multiset(flat0) == multiset(recs) && NumbersSorted(flat0, REC_KEY)
    && (forall h :: IsShared(flat0, h) ==> h in shared)
    && flat == Dropped(flat0, REC_KEY, shared)
    && GroupsReady(pr, hash, told, fs, shared, groups, names)
  }

  /** The members of the flat run under an unshared key look like the facts under it. */
  lemma FlatMembers(pr: Printer, hash: Hash, told: Told, fs: seq<Fact>, recs: seq<FactRec>, flat0: seq<FactRec>, flat: seq<FactRec>,
                    groups: map<Word, seq<Member>>, names: seq<string>, shared: set<Word>, h: Word)
    requires SideReduced(pr, hash, told, fs, recs, flat0, flat, groups, names, shared) && h !in shared
    ensures Members(flat, REC_KEY, h) == Members(flat0, REC_KEY, h) && |Members(flat, REC_KEY, h)| <= 1
    ensures Mapped(Members(flat, REC_KEY, h), RecSeen(names)) == Mapped(Members(fs, HashKeyFn(pr, hash), h), SeenFn(pr, hash, told))
    ensures |Members(fs, HashKeyFn(pr, hash), h)| <= 1
  {
    hide Members, Mapped, Records, GroupsReady, Dropped, FactKey, PropsJson;
    MembersDropped(flat0, REC_KEY, shared, h);
    SharedMeansTwo(flat0, h);
    MembersPermutation(flat0, recs, REC_KEY, h);
    ParallelMembers(pr, hash, told, fs, recs, names, h);
    ShortLists(Members(flat, REC_KEY, h), Members(recs, REC_KEY, h));
  }

  lemma FlatRow(pr: Printer, hash: Hash, told: Told, fs: seq<Fact>, g: map<string, seq<Fact>>, rows: SeenRows,
                recs: seq<FactRec>, flat0: seq<FactRec>, flat: seq<FactRec>,
                groups: map<Word, seq<Member>>, names: seq<string>, shared: set<Word>, h: Word)
    requires IsFactGrouping(pr, fs, g) && KeysHashApart(pr, hash, fs) && HashedRows(pr, hash, told, g, rows)
    requires SideReduced(pr, hash, told, fs, recs, flat0, flat, groups, names, shared) && h !in shared
    ensures Row(rows, h) == Mapped(Members(flat, REC_KEY, h), RecSeen(names))
    ensures h in rows <==> h in KeysOf(flat, REC_KEY)
  {
    FlatMembers(pr, hash, told, fs, recs, flat0, flat, groups, names, shared, h);
    HashedKeys(pr, hash, fs);
    KeyIsMember(flat, REC_KEY, h);
    KeyIsMember(fs, HashKeyFn(pr, hash), h);
    hide Members, Mapped, SideReduced, KeysHashApart, FactKey, PropsJson, KeysOf;
    if h in rows {
      var k := Unhash(hash, g.Keys, h);
      MembersUnderHash(pr, hash, fs, k);
      ShortLists(Members(fs, KeyFn(pr), k), g[k]);
    } else {
      MappedNil(RecSeen(names));
    }
  }

  /** A side shows the rows of the grouping: one record under a key nobody shares, a group
      under a shared key, and nothing under any other key. */
  lemma SideShows(pr: Printer, hash: Hash, told: Told, fs: seq<Fact>, g: map<string, seq<Fact>>, rows: SeenRows,
                  recs: seq<FactRec>, flat0: seq<FactRec>, flat: seq<FactRec>,
                  groups: map<Word, seq<Member>>, names: seq<string>, shared: set<Word>)
    requires pr.Valid() && KindsFollowKeys(pr, fs)
    requires IsFactGrouping(pr, fs, g) && KeysHashApart(pr, hash, fs) && HashedRows(pr, hash, told, g, rows)
    requires SideReduced(pr, hash, told, fs, recs, flat0, flat, groups, names, shared)
    ensures Increasing(flat)
    ensures forall r :: r in flat ==> r.key !in shared && r.kind < |names| && Row(rows, r.key) == [RecSeen(names)(r)]
    ensures forall h :: h !in shared && Lacks(flat, h) ==> Row(rows, h) == []
    ensures ShowsGroups(rows, groups, shared, names)
    ensures KeysOf(flat, REC_KEY) + groups.Keys == rows.Keys
    ensures groups.Keys <= shared
  {
    hide Members, Mapped, FactKey, PropsJson, Printer.Valid, KindsFollowKeys, IsFactGrouping, KeysHashApart, HashedRows, SideReduced, RecSeen,
      KindsNamed, Increasing, GroupsReady;
    ReducedParts(pr, hash, told, fs, recs, flat0, flat, groups, names, shared);
    forall r | r in flat
      ensures r.key !in shared && r.kind < |names| && Row(rows, r.key) == [RecSeen(names)(r)]
    {
      OnlyRecord(pr, hash, told, fs, recs, flat0, flat, groups, names, shared, r);
      FlatRow(pr, hash, told, fs, g, rows, recs, flat0, flat, groups, names, shared, r.key);
      MappedOne(r, RecSeen(names));
    }
    forall h | h !in shared && Lacks(flat, h) ensures Row(rows, h) == [] {
      FlatRow(pr, hash, told, fs, g, rows, recs, flat0, flat, groups, names, shared, h);
      assert h !in KeysOf(flat, REC_KEY);
    }
    forall h | h in shared
      ensures KindsNamed(Row(groups, h), names) && Row(rows, h) == Mapped(Row(groups, h), MemberSeen(names))
      ensures h in rows <==> h in groups
    {
      SharedRow(pr, hash, told, fs, g, rows, groups, names, shared, h);
    }
    forall h ensures h in KeysOf(flat, REC_KEY) + groups.Keys <==> h in rows.Keys {
      if h !in shared {
        FlatRow(pr, hash, told, fs, g, rows, recs, flat0, flat, groups, names, shared, h);
      }
    }
  }

  lemma ReducedParts(pr: Printer, hash: Hash, told: Told, fs: seq<Fact>, recs: seq<FactRec>, flat0: seq<FactRec>, flat: seq<FactRec>,
                     groups: map<Word, seq<Member>>, names: seq<string>, shared: set<Word>)
    requires SideReduced(pr, hash, told, fs, recs, flat0, flat, groups, names, shared)
    ensures Increasing(flat) && groups.Keys <= shared && GroupsReady(pr, hash, told, fs, shared, groups, names)
    ensures forall h :: h in KeysOf(flat, REC_KEY) ==> h !in shared
  {
    hide Records, FactKey, PropsJson, Mapped, Members;
    DroppedIncreasing(flat0, shared);
  }

  lemma OnlyRecord(pr: Printer, hash: Hash, told: Told, fs: seq<Fact>, recs: seq<FactRec>, flat0: seq<FactRec>, flat: seq<FactRec>,
                   groups: map<Word, seq<Member>>, names: seq<string>, shared: set<Word>, r: FactRec)
    requires SideReduced(pr, hash, told, fs, recs, flat0, flat, groups, names, shared) && r in flat
    ensures r.key !in shared && r.kind < |names| && Members(flat, REC_KEY, r.key) == [r]
  {
    hide GroupsReady, FactKey, PropsJson, Mapped, NumbersSorted, IsShared;
    assert r in Members(flat, REC_KEY, r.key);
    assert r in flat0 && r.key !in shared;
    FlatMembers(pr, hash, told, fs, recs, flat0, flat, groups, names, shared, r.key);
    var i := Occurrence(r, flat0, recs);
  }

  lemma SharedRow(pr: Printer, hash: Hash, told: Told, fs: seq<Fact>, g: map<string, seq<Fact>>, rows: SeenRows,
                  groups: map<Word, seq<Member>>, names: seq<string>, shared: set<Word>, h: Word)
    requires pr.Valid() && KindsFollowKeys(pr, fs)
    requires IsFactGrouping(pr, fs, g) && KeysHashApart(pr, hash, fs) && HashedRows(pr, hash, told, g, rows)
    requires GroupsReady(pr, hash, told, fs, shared, groups, names) && h in shared
    ensures KindsNamed(Row(groups, h), names) && Row(rows, h) == Mapped(Row(groups, h), MemberSeen(names))
    ensures h in rows <==> h in groups
  {
    hide Members, FactKey, PropsJson, Printer.Valid, KindsFollowKeys, KeysHashApart, KeysOf;
    HashedKeys(pr, hash, fs);
    MappedNil(MemberSeen(names));
    if h in rows {
      var k := Unhash(hash, g.Keys, h);
      GroupRow(pr, hash, told, fs, g, k, shared, groups, names);
    }
  }
}
