/** One snapshot reduced to counting form (internal/diff/counts.go): hashed records, ordered
    groups for the shared keys, and a sorted set of edge hashes. */
module Sides {
  import opened Text
  import opened Bags
  import opened Slices
  import opened Facts
  import opened Diff

  type Hash = string -> Word

  const MAX_KINDS := 0x1_0000

  /** One fact reduced to what the counts need. */
  datatype FactRec = FactRec(key: Word, props: Word, kind: nat)

  /** A fact of a group that shares a key. */
  datatype Member = Member(ord: string, props: Word, kind: nat)

  /** What a record says once its kind id is read back. */
  datatype Seen = Seen(props: Word, kind: string)

  datatype Ordered = Ordered(ord: string, seen: Seen)

  /** The kind under which each kind is counted: itself, unless more kinds occur than ids. */
  type Told = string -> string

  /** The kinds of `fs` in the order they first occur, which is the order they are numbered in. */
  function KindOrder(fs: seq<Fact>): seq<string> {
    if fs == [] then []
    else
      var init, kind := KindOrder(fs[..|fs| - 1]), fs[|fs| - 1].kind;
      if kind in init then init else init + [kind]
  }

  function Position(names: seq<string>, kind: string): nat {
    if names == [] || names[0] == kind then 0 else 1 + Position(names[1..], kind)
  }

  /** Kinds whose numbers agree in 16 bits are counted under the first of them. */
  function ToldBy(order: seq<string>): Told {
    kind => KindName(order, Position(order, kind) % MAX_KINDS)
  }

  ghost predicate Distinct(names: seq<string>) {
    forall i, j :: 0 <= i < j < |names| ==> names[i] != names[j]
  }

  lemma {:induction false} PositionOf(names: seq<string>, i: nat)
    requires i < |names| && Distinct(names)
    ensures Position(names, names[i]) == i
    decreases |names|
  {
    if i > 0 {
      assert names[0] != names[i] && names[1..][i - 1] == names[i];
      PositionOf(names[1..], i - 1);
    }
  }

  lemma ToldEarly(order: seq<string>, i: nat)
    requires Distinct(order) && i < |order| && i < MAX_KINDS
    ensures ToldBy(order)(order[i]) == order[i]
  {
    PositionOf(order, i);
  }

  /** With few enough kinds each is counted under itself. */
  lemma ToldAsItself(fs: seq<Fact>, f: Fact)
    requires f in fs && |KindOrder(fs)| <= MAX_KINDS
    ensures ToldBy(KindOrder(fs))(f.kind) == f.kind
  {
    hide ToldBy, KindOrder, Distinct;
    KindsListed(fs);
    assert f.kind in KindsOf(fs);
    hide KindsOf;
    var i :| 0 <= i < |KindOrder(fs)| && KindOrder(fs)[i] == f.kind;
    ToldEarly(KindOrder(fs), i);
  }

  lemma {:induction false} KindsListed(fs: seq<Fact>)
    ensures Distinct(KindOrder(fs)) && forall k :: k in KindOrder(fs) <==> k in KindsOf(fs)
    decreases |fs|
  {
    if fs != [] {
      var init, last := fs[..|fs| - 1], fs[|fs| - 1];
      KindsListed(init);
      assert fs == init + [last];
    }
  }

  lemma FewKinds(fs: seq<Fact>)
    ensures |KindOrder(fs)| == |KindsOf(fs)|
  {
    KindsListed(fs);
    hide KindOrder;
    var order := KindOrder(fs);
    assert KindsOf(fs) == set i | 0 <= i < |order| :: order[i];
    DistinctSize(order);
  }

  lemma {:induction false} DistinctSize(names: seq<string>)
    requires Distinct(names)
    ensures |set i | 0 <= i < |names| :: names[i]| == |names|
    decreases |names|
  {
    if names != [] {
      var init, last := names[..|names| - 1], names[|names| - 1];
      DistinctSize(init);
      var before := set i | 0 <= i < |init| :: init[i];
      assert (set i | 0 <= i < |names| :: names[i]) == before + {last} by {
        assert forall i :: 0 <= i < |init| ==> init[i] == names[i];
      }
    }
  }

  lemma KindsMet(fs: seq<Fact>, n: nat)
    requires n < |fs|
    ensures KindOrder(fs[..n + 1]) == if fs[n].kind in KindOrder(fs[..n]) then KindOrder(fs[..n]) else KindOrder(fs[..n]) + [fs[n].kind]
  {
    assert fs[..n + 1][..n] == fs[..n];
  }

  /** Meeting more facts only adds kinds at the end. */
  lemma {:induction false} KindsGrow(fs: seq<Fact>, n: nat)
    requires n <= |fs|
    ensures KindOrder(fs[..n]) <= KindOrder(fs)
    decreases |fs| - n
  {
    if n < |fs| {
      KindsMet(fs, n);
      KindsGrow(fs, n + 1);
    } else {
      assert fs[..n] == fs;
    }
  }

  function HashKeyFn(pr: Printer, hash: Hash): Fact -> Word { (f: Fact) => hash(FactKey(pr, f)) }

  function SeenFn(pr: Printer, hash: Hash, told: Told): Fact -> Seen { (f: Fact) => Seen(hash(PropsJson(pr, f.props)), told(f.kind)) }

  function OrderedFn(pr: Printer, hash: Hash, told: Told): Fact -> Ordered {
    (f: Fact) => Ordered(IntraGroupOrder(pr, f), SeenFn(pr, hash, told)(f))
  }

  function KindName(names: seq<string>, id: nat): string {
    if id < |names| then names[id] else ""
  }

  function RecSeen(names: seq<string>): FactRec -> Seen {
    (r: FactRec) => Seen(r.props, KindName(names, r.kind))
  }

  function MemberOrdered(names: seq<string>): Member -> Ordered {
    (m: Member) => Ordered(m.ord, Seen(m.props, KindName(names, m.kind)))
  }

  function MemberSeen(names: seq<string>): Member -> Seen {
    (m: Member) => Seen(m.props, KindName(names, m.kind))
  }

  const MEMBER_ORD: Member -> string := (m: Member) => m.ord
  const REC_KEY: FactRec -> Word := (r: FactRec) => r.key
  const ORDERED_ORD: Ordered -> string := (o: Ordered) => o.ord

  function KindsOf(fs: seq<Fact>): set<string> {
    set f | f in fs :: f.kind
  }

  class KindTable {
    var ids: map<string, nat>
    var names: seq<string>

    /** Kinds are numbered in the order they come, 16 bits wide. */
    ghost predicate Numbered()
      reads this
    {
      Numbering(ids, names)
    }

    /** The kinds met so far are the first of `order`. */
    ghost predicate Valid(order: seq<string>)
      reads this
    {
      Numbered() && names <= order && Distinct(order)
    }

    constructor ()
      ensures Numbered() && ids == map[] && names == []
    {
      ids, names := map[], [];
    }

    lemma Known(order: seq<string>, kind: string)
      requires Valid(order)
      ensures kind in ids <==> kind in names
    {
    }

    /** The id of a kind, which names the kind it is counted under: itself exactly when fewer than
        65536 others came before it. */
    method Id(kind: string, ghost order: seq<string>) returns (id: nat)
      requires Valid(order) && (kind in ids || names + [kind] <= order)
      modifies this
      ensures Valid(order)
      ensures id < |names| && names[id] == ToldBy(order)(kind)
      ensures names[id] == kind <==> exists n :: 0 <= n < |names| && n < 65536 && names[n] == kind
      ensures ids.Keys == old(ids.Keys) + {kind}
      ensures names == if kind in old(ids) then old(names) else old(names) + [kind]
    {
      hide Numbering, ToldBy;
      if kind in ids {
        id := ids[kind];
      } else {
        NewKind(ids, names, kind);
        id := |names| % MAX_KINDS;
        ids := ids[kind := id];
        names := names + [kind];
      }
      NumberOf(ids, names, kind);
      IdTells(ids, names, order, kind);
    }
  }

  lemma IdTells(ids: map<string, nat>, names: seq<string>, order: seq<string>, kind: string)
    requires Numbering(ids, names) && names <= order && Distinct(order) && kind in ids
    ensures ids[kind] < |names| && names[ids[kind]] == ToldBy(order)(kind)
  {
    var m :| 0 <= m < |names| && names[m] == kind;
    assert ids[names[m]] == m % MAX_KINDS;
    assert order[m] == kind;
    PositionOf(order, m);
  }

  ghost predicate Numbering(ids: map<string, nat>, names: seq<string>) {
    && (forall k :: k in ids ==> k in names)
    && (forall i :: 0 <= i < |names| ==> names[i] in ids && ids[names[i]] == i % MAX_KINDS)
    && (forall i, j :: 0 <= i < j < |names| ==> names[i] != names[j])
  }

  lemma NewKind(ids: map<string, nat>, names: seq<string>, kind: string)
    requires Numbering(ids, names) && kind !in ids
    ensures Numbering(ids[kind := |names| % MAX_KINDS], names + [kind])
  {
  }

  lemma NumberOf(ids: map<string, nat>, names: seq<string>, kind: string)
    requires Numbering(ids, names) && kind in ids
    ensures ids[kind] < |names|
    ensures names[ids[kind]] == kind <==> exists n :: 0 <= n < |names| && n < MAX_KINDS && names[n] == kind
  {
    var m :| 0 <= m < |names| && names[m] == kind;
    assert ids[names[m]] == m % MAX_KINDS;
  }

  /** The hashes of the edge keys of `fs`. */
  ghost predicate IsEdgeHash(hash: Hash, fs: seq<Fact>, h: Word) {
    exists e :: IsEdge(fs, e) && h == hash(EdgeKey(e))
  }

  ghost predicate EdgeHashes(hash: Hash, fs: seq<Fact>, hs: seq<Word>) {
    forall h :: h in hs <==> IsEdgeHash(hash, fs, h)
  }

  /** A record for each fact of `fs`, in order. */
  ghost predicate Records(pr: Printer, hash: Hash, told: Told, fs: seq<Fact>, flat: seq<FactRec>, names: seq<string>) {
    && |flat| == |fs|
    && forall i :: 0 <= i < |fs| ==>
         && flat[i].key == HashKeyFn(pr, hash)(fs[i])
         && flat[i].kind < |names|
         && RecSeen(names)(flat[i]) == SeenFn(pr, hash, told)(fs[i])
  }

  /** Naming further kinds does not change what a record says. */
  lemma RecordsKept(pr: Printer, hash: Hash, told: Told, fs: seq<Fact>, flat: seq<FactRec>, names: seq<string>, more: seq<string>)
    requires Records(pr, hash, told, fs, flat, names) && names <= more
    ensures Records(pr, hash, told, fs, flat, more)
  {
  }

  lemma RecordsStep(pr: Printer, hash: Hash, told: Told, fs: seq<Fact>, n: nat, flat: seq<FactRec>, names: seq<string>, r: FactRec)
    requires n < |fs| && Records(pr, hash, told, fs[..n], flat, names)
    requires r.key == hash(FactKey(pr, fs[n])) && r.kind < |names|
    requires RecSeen(names)(r) == SeenFn(pr, hash, told)(fs[n])
    ensures Records(pr, hash, told, fs[..n + 1], flat + [r], names)
  {
    hide FactKey, PropsJson;
  }

  method HashEdges(hash: Hash, ghost older: seq<Fact>, f: Fact, edges0: seq<Word>) returns (edges: seq<Word>)
    requires !IsDocument(f) && EdgeHashes(hash, older, edges0)
    ensures EdgeHashes(hash, older + [f], edges)
  {
    edges := edges0;
    for j := 0 to |f.relations|
      invariant forall h :: h in edges <==>
        IsEdgeHash(hash, older, h) || exists r :: r in f.relations[..j] && h == hash(EdgeKey(EdgeOf(f, r)))
    {
      TakeSnoc(f.relations, j + 1);
      edges := edges + [hash(EdgeKey(EdgeOf(f, f.relations[j])))];
    }
    TakeAll(f.relations);
    EdgeHashesLast(hash, older, f, edges);
  }

  lemma EdgeHashesLast(hash: Hash, older: seq<Fact>, f: Fact, edges: seq<Word>)
    requires !IsDocument(f)
    requires forall h :: h in edges <==>
      IsEdgeHash(hash, older, h) || exists r :: r in f.relations && h == hash(EdgeKey(EdgeOf(f, r)))
    ensures EdgeHashes(hash, older + [f], edges)
  {
    hide EdgeKey, IsEdge;
    forall h ensures h in edges <==> IsEdgeHash(hash, older + [f], h) {
      if IsEdgeHash(hash, older + [f], h) {
        var e :| IsEdge(older + [f], e) && h == hash(EdgeKey(e));
        IsEdgeLast(older, f, e);
      }
      if IsEdgeHash(hash, older, h) {
        var e :| IsEdge(older, e) && h == hash(EdgeKey(e));
        IsEdgeLast(older, f, e);
      }
      if r :| r in f.relations && h == hash(EdgeKey(EdgeOf(f, r))) {
        IsEdgeLast(older, f, EdgeOf(f, r));
      }
    }
  }

  lemma EdgeHashesSkip(hash: Hash, older: seq<Fact>, f: Fact, edges: seq<Word>)
    requires IsDocument(f) && EdgeHashes(hash, older, edges)
    ensures EdgeHashes(hash, older + [f], edges)
  {
    hide EdgeKey;
    forall e ensures IsEdge(older + [f], e) <==> IsEdge(older, e) {
      IsEdgeLast(older, f, e);
    }
  }

  ghost predicate KindsNamed(ms: seq<Member>, names: seq<string>) {
    forall m :: m in ms ==> m.kind < |names|
  }

  /** The members read so far for the given keys, in reading order. */
  ghost predicate Gathered(pr: Printer, hash: Hash, told: Told, src: seq<Fact>, keys: set<Word>,
                           groups: map<Word, seq<Member>>, names: seq<string>) {
    && groups.Keys == keys * KeysOf(src, HashKeyFn(pr, hash))
    && forall k :: k in groups ==>
         && KindsNamed(groups[k], names)
         && Mapped(groups[k], MemberOrdered(names)) == Mapped(Members(src, HashKeyFn(pr, hash), k), OrderedFn(pr, hash, told))
  }

  /** The members of `src` under each of the given keys, ordered. */
  ghost predicate GroupsReady(pr: Printer, hash: Hash, told: Told, src: seq<Fact>, keys: set<Word>,
                              groups: map<Word, seq<Member>>, names: seq<string>) {
    && groups.Keys == keys * KeysOf(src, HashKeyFn(pr, hash))
    && forall k :: k in groups ==>
         && KindsNamed(groups[k], names)
         && SortedBy(groups[k], MEMBER_ORD)
         && multiset(Mapped(groups[k], MemberOrdered(names)))
            == multiset(Mapped(Members(src, HashKeyFn(pr, hash), k), OrderedFn(pr, hash, told)))
  }

  lemma GatherNothing(pr: Printer, hash: Hash, told: Told, src: seq<Fact>, keys: set<Word>, names: seq<string>)
    ensures Gathered(pr, hash, told, src[..0], keys, map[], names)
    ensures keys == {} ==> GroupsReady(pr, hash, told, src, keys, map[], names)
  {
  }

  lemma GatherSkip(pr: Printer, hash: Hash, told: Told, src: seq<Fact>, f: Fact, keys: set<Word>,
                   groups: map<Word, seq<Member>>, names: seq<string>)
    requires Gathered(pr, hash, told, src, keys, groups, names)
    requires HashKeyFn(pr, hash)(f) !in keys
    ensures Gathered(pr, hash, told, src + [f], keys, groups, names)
  {
    hide FactKey, Mapped, Members, KeysOf;
    AppendKey(src, f, HashKeyFn(pr, hash));
    forall k | k in groups
      ensures Members(src + [f], HashKeyFn(pr, hash), k) == Members(src, HashKeyFn(pr, hash), k)
    {
      AppendMember(src, f, HashKeyFn(pr, hash), k);
    }
  }

  lemma GatherStep(pr: Printer, hash: Hash, told: Told, src: seq<Fact>, f: Fact, keys: set<Word>,
                   groups: map<Word, seq<Member>>, names: seq<string>, m: Member)
    requires Gathered(pr, hash, told, src, keys, groups, names)
    requires HashKeyFn(pr, hash)(f) in keys
    requires m.kind < |names| && MemberOrdered(names)(m) == OrderedFn(pr, hash, told)(f)
    ensures var k := HashKeyFn(pr, hash)(f);
      Gathered(pr, hash, told, src + [f], keys, groups[k := Row(groups, k) + [m]], names)
  {
    hide FactKey, Mapped, Members, KeysOf, OrderedFn, MemberOrdered;
    var h := HashKeyFn(pr, hash)(f);
    AppendKey(src, f, HashKeyFn(pr, hash));
    var grown := groups[h := Row(groups, h) + [m]];
    forall k | k in grown
      ensures KindsNamed(grown[k], names)
      ensures Mapped(grown[k], MemberOrdered(names)) == Mapped(Members(src + [f], HashKeyFn(pr, hash), k), OrderedFn(pr, hash, told))
    {
      AppendMember(src, f, HashKeyFn(pr, hash), k);
      if k == h {
        MappedSnoc(Row(groups, h), m, MemberOrdered(names));
        MappedSnoc(Members(src, HashKeyFn(pr, hash), h), f, OrderedFn(pr, hash, told));
        MappedNil(MemberOrdered(names));
        MappedNil(OrderedFn(pr, hash, told));
      }
    }
  }

  lemma GroupsOrdered(pr: Printer, hash: Hash, told: Told, src: seq<Fact>, keys: set<Word>,
                      before: map<Word, seq<Member>>, groups: map<Word, seq<Member>>, names: seq<string>)
    requires Gathered(pr, hash, told, src, keys, before, names)
    requires groups.Keys == before.Keys
    requires forall k :: k in groups ==> multiset(groups[k]) == multiset(before[k]) && SortedBy(groups[k], MEMBER_ORD)
    ensures GroupsReady(pr, hash, told, src, keys, groups, names)
  {
    hide FactKey, Mapped, Members, KeysOf, OrderedFn, MemberOrdered, SortedBy;
    forall k | k in groups
      ensures KindsNamed(groups[k], names)
      ensures multiset(Mapped(groups[k], MemberOrdered(names)))
            == multiset(Mapped(Members(src, HashKeyFn(pr, hash), k), OrderedFn(pr, hash, told)))
    {
      MappedPermutation(groups[k], before[k], MemberOrdered(names));
      forall m | m in groups[k] ensures m.kind < |names| {
        assert m in multiset(before[k]);
      }
    }
  }

  /** The keys held by more than one record. */
  ghost predicate IsShared(flat: seq<FactRec>, k: Word) {
    exists i, j :: 0 <= i < j < |flat| && flat[i].key == flat[j].key == k
  }

  class Side {
    var flat: seq<FactRec>
    var groups: map<Word, seq<Member>>
    var edges: seq<Word>
    const kinds: KindTable

    constructor (kinds: KindTable)
      ensures this.kinds == kinds && flat == [] && groups == map[] && edges == []
    {
      this.kinds := kinds;
      flat, groups, edges := [], map[], [];
    }

    method Record(pr: Printer, hash: Hash, ghost told: Told, src: seq<Fact>, i: nat, ghost order: seq<string>)
      requires i < |src| && kinds.Valid(order) && told == ToldBy(order)
      requires src[i].kind in kinds.ids || kinds.names + [src[i].kind] <= order
      requires Records(pr, hash, told, src[..i], flat, kinds.names)
      modifies this`flat, kinds
      ensures kinds.Valid(order)
      ensures kinds.names == if src[i].kind in old(kinds.ids) then old(kinds.names) else old(kinds.names) + [src[i].kind]
      ensures kinds.ids.Keys == old(kinds.ids.Keys) + {src[i].kind}
      ensures Records(pr, hash, told, src[..i + 1], flat, kinds.names)
    {
      hide Records, FactKey, PropsJson, KindTable.Valid, ToldBy;
      var f := src[i];
      ghost var names := kinds.names;
      var id := kinds.Id(f.kind, order);
      var r := FactRec(hash(FactKey(pr, f)), hash(PropsJson(pr, f.props)), id);
      RecordsKept(pr, hash, told, src[..i], flat, names, kinds.names);
      RecordsStep(pr, hash, told, src, i, flat, kinds.names, r);
      flat := flat + [r];
    }

    /** A document is prose: it contributes no edge. */
    method CollectEdges(hash: Hash, ghost older: seq<Fact>, f: Fact)
      requires EdgeHashes(hash, older, edges)
      modifies this`edges
      ensures EdgeHashes(hash, older + [f], edges)
    {
      if IsDocument(f) {
        EdgeHashesSkip(hash, older, f, edges);
      } else {
        edges := HashEdges(hash, older, f, edges);
      }
    }

    /** Reduces every fact to a record and collects the edge hashes. `whole`: all facts of both
        sides, of which `n` come before these. */
    method Pass1(pr: Printer, hash: Hash, ghost told: Told, src: seq<Fact>, ghost whole: seq<Fact>, ghost n: nat)
      requires flat == [] && edges == []
      requires n + |src| <= |whole| && whole[n..n + |src|] == src && told == ToldBy(KindOrder(whole))
      requires kinds.Valid(KindOrder(whole)) && kinds.names == KindOrder(whole[..n])
      modifies this`flat, this`edges, kinds
      ensures kinds.Valid(KindOrder(whole)) && old(kinds.names) <= kinds.names == KindOrder(whole[..n + |src|])
      ensures kinds.ids.Keys == old(kinds.ids.Keys) + KindsOf(src)
      ensures Records(pr, hash, told, src, flat, kinds.names)
      ensures EdgeHashes(hash, src, edges)
    {
      hide Records, EdgeHashes, KindTable.Valid, KindsOf, IsDocument, KindOrder, ToldBy;
      NothingRecorded(pr, hash, told, src, kinds.names);
      for i := 0 to |src|
        invariant kinds.Valid(KindOrder(whole)) && old(kinds.names) <= kinds.names == KindOrder(whole[..n + i])
        invariant kinds.ids.Keys == old(kinds.ids.Keys) + KindsOf(src[..i])
        invariant Records(pr, hash, told, src[..i], flat, kinds.names)
        invariant EdgeHashes(hash, src[..i], edges)
      {
        TakeSnoc(src, i + 1);
        KindsStep(src, i);
        assert whole[n + i] == src[i];
        KindsMet(whole, n + i);
        KindsGrow(whole, n + i + 1);
        kinds.Known(KindOrder(whole), src[i].kind);
        Record(pr, hash, told, src, i, KindOrder(whole));
        CollectEdges(hash, src[..i], src[i]);
      }
      TakeAll(src);
    }

    method SortFlat()
      modifies this`flat
      ensures multiset(flat) == multiset(old(flat))
      ensures NumbersSorted(flat, REC_KEY)
    {
      flat := SortByNumber(flat, REC_KEY);
    }

    /** Revisits the facts of the given keys and materialises their groups. */
    method GatherGroups(pr: Printer, hash: Hash, ghost told: Told, src: seq<Fact>, keys: set<Word>, ghost order: seq<string>)
      requires kinds.Valid(order) && told == ToldBy(order) && KindsOf(src) <= kinds.ids.Keys
      modifies this`groups, kinds
      ensures kinds.Valid(order) && kinds.names == old(kinds.names)
      ensures kinds.ids.Keys == old(kinds.ids.Keys)
      ensures Gathered(pr, hash, told, src, keys, groups, kinds.names)
    {
      hide Gathered, FactKey, PropsJson, IntraGroupOrder, KindTable.Valid, KindsOf, Members, ToldBy;
      groups := map[];
      GatherNothing(pr, hash, told, src, keys, kinds.names);
      for i := 0 to |src|
        invariant kinds.Valid(order) && kinds.names == old(kinds.names)
        invariant kinds.ids.Keys == old(kinds.ids.Keys)
        invariant Gathered(pr, hash, told, src[..i], keys, groups, kinds.names)
      {
        TakeSnoc(src, i + 1);
        KindsStep(src, i);
        Gather(pr, hash, told, src[..i], src[i], keys, order);
      }
      TakeAll(src);
    }

    method Gather(pr: Printer, hash: Hash, ghost told: Told, ghost older: seq<Fact>, f: Fact, keys: set<Word>, ghost order: seq<string>)
      requires kinds.Valid(order) && told == ToldBy(order) && f.kind in kinds.ids
      requires Gathered(pr, hash, told, older, keys, groups, kinds.names)
      modifies this`groups, kinds
      ensures kinds.Valid(order) && kinds.names == old(kinds.names)
      ensures kinds.ids.Keys == old(kinds.ids.Keys)
      ensures Gathered(pr, hash, told, older + [f], keys, groups, kinds.names)
    {
      hide Gathered, FactKey, PropsJson, IntraGroupOrder, ToldBy, KindTable.Numbered;
      var k := hash(FactKey(pr, f));
      if k !in keys {
        GatherSkip(pr, hash, told, older, f, keys, groups, kinds.names);
        return;
      }
      var id := kinds.Id(f.kind, order);
      var m := Member(IntraGroupOrder(pr, f), hash(PropsJson(pr, f.props)), id);
      assert SeenFn(pr, hash, told)(f) == Seen(m.props, KindName(kinds.names, m.kind));
      GatherStep(pr, hash, told, older, f, keys, groups, kinds.names, m);
      groups := groups[k := Row(groups, k) + [m]];
    }

    /** The grouped keys are now accounted for twice: drop them from the flat run, in place. */
    method DropShared(keys: set<Word>)
      modifies this`flat
      ensures flat == Dropped(old(flat), REC_KEY, keys)
    {
      hide Dropped;
      ghost var before := flat;
      NoneDropped(keys);
      var kept := 0;
      for i := 0 to |flat|
        invariant kept <= i <= |flat| == |before|
        invariant forall n :: i <= n < |flat| ==> flat[n] == before[n]
        invariant flat[..kept] == Dropped(before[..i], REC_KEY, keys)
      {
        var r := flat[i];
        DroppedStep(before, i, keys);
        if r.key !in keys {
          Overwritten(flat, kept, r);
          flat := flat[kept := r];
          kept := kept + 1;
        }
      }
      TakeAll(before);
      flat := flat[..kept];
    }

    method Pass2(pr: Printer, hash: Hash, ghost told: Told, src: seq<Fact>, keys: set<Word>, ghost order: seq<string>)
      requires groups == map[]
      requires kinds.Valid(order) && told == ToldBy(order) && KindsOf(src) <= kinds.ids.Keys
      modifies this`flat, this`groups, kinds
      ensures kinds.Valid(order) && kinds.names == old(kinds.names)
      ensures kinds.ids.Keys == old(kinds.ids.Keys)
      ensures GroupsReady(pr, hash, told, src, keys, groups, kinds.names)
      ensures flat == Dropped(old(flat), REC_KEY, keys)
    {
      hide KindTable.Valid, GroupsReady, Gathered, KindsOf, ToldBy;
      if keys == {} {
        GatherNothing(pr, hash, told, src, keys, kinds.names);
        NothingDropped(flat);
        return;
      }
      GatherGroups(pr, hash, told, src, keys, order);
      ghost var gathered := groups;
      groups := SortGroups(groups, MEMBER_ORD);
      GroupsOrdered(pr, hash, told, src, keys, gathered, groups, kinds.names);
      DropShared(keys);
    }

    /** The keys held by more than one fact, found by comparing neighbours. */
    method DupKeys() returns (out: set<Word>)
      requires NumbersSorted(flat, REC_KEY)
      ensures forall k :: k in out <==> IsShared(flat, k)
    {
      out := {};
      var i := 1;
      while i < |flat|
        invariant 1 <= i && (i <= |flat| || i == 1)
        invariant forall k :: k in out <==> exists j :: 1 <= j < i && j < |flat| && flat[j - 1].key == flat[j].key == k
      {
        if flat[i].key == flat[i - 1].key {
          out := out + {flat[i].key};
        }
        i := i + 1;
      }
      NeighboursShare(flat, out);
    }
  }

  lemma NoneDropped(keys: set<Word>)
    ensures Dropped([], REC_KEY, keys) == []
  {
  }

  lemma Overwritten<T>(xs: seq<T>, n: nat, x: T)
    requires n < |xs|
    ensures xs[n := x][..n + 1] == xs[..n] + [x]
  {
  }

  lemma DroppedStep(flat: seq<FactRec>, i: nat, keys: set<Word>)
    requires i < |flat|
    ensures Dropped(flat[..i + 1], REC_KEY, keys)
         == if flat[i].key in keys then Dropped(flat[..i], REC_KEY, keys) else Dropped(flat[..i], REC_KEY, keys) + [flat[i]]
  {
    assert flat[..i + 1][..i] == flat[..i];
  }

  lemma {:induction false} NothingDropped(flat: seq<FactRec>)
    ensures Dropped(flat, REC_KEY, {}) == flat
  {
    if flat != [] {
      NothingDropped(flat[..|flat| - 1]);
      TakeSnoc(flat, |flat|);
      TakeAll(flat);
    }
  }

  lemma KindsStep(src: seq<Fact>, i: nat)
    requires i < |src|
    ensures src[i].kind in KindsOf(src)
    ensures KindsOf(src[..i + 1]) == KindsOf(src[..i]) + {src[i].kind}
  {
    TakeSnoc(src, i + 1);
  }

  lemma NothingRecorded(pr: Printer, hash: Hash, told: Told, src: seq<Fact>, names: seq<string>)
    ensures Records(pr, hash, told, src[..0], [], names) && EdgeHashes(hash, src[..0], []) && KindsOf(src[..0]) == {}
  {
  }

  /** In a sorted run a repeated key repeats next to itself. */
  lemma NeighboursShare(flat: seq<FactRec>, out: set<Word>)
    requires NumbersSorted(flat, REC_KEY)
    requires forall k :: k in out <==> exists j :: 1 <= j < |flat| && flat[j - 1].key == flat[j].key == k
    ensures forall k :: k in out <==> IsShared(flat, k)
  {
    forall k ensures k in out <==> IsShared(flat, k) {
      if i, j :| 0 <= i < j < |flat| && flat[i].key == flat[j].key == k {
        assert REC_KEY(flat[i]) <= REC_KEY(flat[j - 1]) <= REC_KEY(flat[j]);
      }
    }
  }
}
