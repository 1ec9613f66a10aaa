/** How snapshots are built and published (internal/engine/engine.go, internal/engine/pipeline.go,
    internal/engine/extractfiles.go): every interleaving of generates, restores, file
    extractions, artifact writes and readers over one atomic pointer. */
module Publication {
  import opened Wrappers

  /** A fact lives in a cell. A store is a list of cells, and two stores share a fact when they
      list the same cell. */
  type Cell = nat

  type Value = string

  type StoreId = nat

  /** What readers load: never changed once made. `turn` counts the publications before it. */
  datatype Bundle = Bundle(store: StoreId, turn: nat, meta: string)

  datatype Proc =
    | Building(store: StoreId)                      // a generate, holding the lock
    | Borrowing(store: StoreId, saved: StoreId)     // ExtractFiles, holding the lock
    | Restoring(store: StoreId)                     // a restore, holding nothing
    | Writing(bundle: nat)                          // WriteArtifacts, having loaded a bundle
    | Reading(bundle: nat)

  datatype World = World(
    heap: map<Cell, Value>,
    stores: map<StoreId, seq<Cell>>,
    bundles: seq<Bundle>,
    current: nat,
    scratch: StoreId,
    lock: Option<nat>,
    procs: map<nat, Proc>,
    nextCell: nat,
    nextStore: nat)

  datatype Event =
    | Generate(p: nat, append: bool)
    | Extract(p: nat)
    | Restore(p: nat)
    | Change(p: nat, i: nat, v: Value)
    | Add(p: nat, v: Value)
    | Remove(p: nat, i: nat)
    | Freeze(p: nat, shared: seq<Cell>)
    | Publish(p: nat, meta: string)
    | Fail(p: nat)
    | Return(p: nat)
    | Load(p: nat)
    | Republish(p: nat, meta: string)
    | Read(p: nat)
    | Leave(p: nat)

  /** The engine as it starts: the scratch store is the published empty one. */
  const INIT: World := World(map[], map[0 := []], [Bundle(0, 0, "")], 0, 0, None, map[], 0, 1)

  /** The store a builder works on. The pipeline's helpers go through the scratch pointer. */
  function Target(w: World, p: nat): StoreId
    requires p in w.procs
  {
    if w.procs[p].Restoring? then w.procs[p].store else w.scratch
  }

  predicate Active(s: Proc) {
    s.Building? || s.Borrowing? || s.Restoring?
  }

  predicate CanBuild(w: World, p: nat) {
    p in w.procs && Active(w.procs[p]) && Target(w, p) in w.stores
  }

  predicate Idle(w: World, p: nat) {
    p !in w.procs
  }

  /** Sharing equal facts: the same values at the same places, in cells the store already has. */
  predicate Shares(w: World, cells: seq<Cell>, shared: seq<Cell>) {
    |shared| == |cells| && forall i :: 0 <= i < |cells| ==>
      shared[i] in cells && shared[i] in w.heap && cells[i] in w.heap && w.heap[shared[i]] == w.heap[cells[i]]
  }

  predicate Enabled(w: World, e: Event) {
    match e
    case Generate(p, append) => Idle(w, p) && w.lock.None? && w.current < |w.bundles| && w.bundles[w.current].store in w.stores
    case Extract(p) => Idle(w, p) && w.lock.None?
    case Restore(p) => Idle(w, p)
    case Change(p, i, v) => CanBuild(w, p) && i < |w.stores[Target(w, p)]|
    case Add(p, v) => CanBuild(w, p)
    case Remove(p, i) => CanBuild(w, p) && i < |w.stores[Target(w, p)]|
    case Freeze(p, shared) => p in w.procs && (w.procs[p].Building? || w.procs[p].Restoring?)
      && w.procs[p].store in w.stores && Shares(w, w.stores[w.procs[p].store], shared)
    case Publish(p, meta) => p in w.procs && (w.procs[p].Building? || w.procs[p].Restoring?) && w.current < |w.bundles|
    case Fail(p) => p in w.procs && (w.procs[p].Building? || w.procs[p].Restoring?)
    case Return(p) => p in w.procs && w.procs[p].Borrowing?
    case Load(p) => Idle(w, p)
    case Republish(p, meta) => p in w.procs && w.procs[p].Writing? && w.procs[p].bundle < |w.bundles|
    case Read(p) => Idle(w, p)
    case Leave(p) => p in w.procs && w.procs[p].Reading?
  }

  /** Fresh cells with the values of these. */
  function CopyHeap(heap: map<Cell, Value>, from: seq<Cell>, next: nat): map<Cell, Value> {
    if from == [] then heap
    else
      var rest := CopyHeap(heap, from[..|from| - 1], next);
      if from[|from| - 1] in heap then rest[next + |from| - 1 := heap[from[|from| - 1]]] else rest[next + |from| - 1 := ""]
  }

  function Fresh(next: nat, n: nat): seq<Cell> {
    seq(n, i => next + i)
  }

  /** prepareStore: a new store, in append mode holding copies of the published facts. */
  function Prepared(w: World, p: nat, append: bool): World
    requires Enabled(w, Generate(p, append))
  {
    var from := if append then w.stores[w.bundles[w.current].store] else [];
    w.(heap := CopyHeap(w.heap, from, w.nextCell), nextCell := w.nextCell + |from|,
       stores := w.stores[w.nextStore := Fresh(w.nextCell, |from|)], nextStore := w.nextStore + 1,
       scratch := w.nextStore, lock := Some(p), procs := w.procs[p := Building(w.nextStore)])
  }

  function Next(w: World, e: Event): World
    requires Enabled(w, e)
  {
    match e
    case Generate(p, append) => Prepared(w, p, append)
    case Extract(p) =>
      w.(stores := w.stores[w.nextStore := []], nextStore := w.nextStore + 1, scratch := w.nextStore,
         lock := Some(p), procs := w.procs[p := Borrowing(w.nextStore, w.scratch)])
    case Restore(p) =>
      w.(stores := w.stores[w.nextStore := []], nextStore := w.nextStore + 1, procs := w.procs[p := Restoring(w.nextStore)])
    case Change(p, i, v) => w.(heap := w.heap[w.stores[Target(w, p)][i] := v])
    case Add(p, v) =>
      w.(heap := w.heap[w.nextCell := v], nextCell := w.nextCell + 1,
         stores := w.stores[Target(w, p) := w.stores[Target(w, p)] + [w.nextCell]])
    case Remove(p, i) =>
      var cells := w.stores[Target(w, p)];
      w.(stores := w.stores[Target(w, p) := cells[..i] + cells[i + 1..]])
    case Freeze(p, shared) => w.(stores := w.stores[w.procs[p].store := shared])
    case Publish(p, meta) =>
      w.(bundles := w.bundles + [Bundle(w.procs[p].store, w.bundles[w.current].turn + 1, meta)], current := |w.bundles|,
         lock := if w.procs[p].Building? then None else w.lock, procs := w.procs - {p})
    case Fail(p) => w.(lock := if w.procs[p].Building? then None else w.lock, procs := w.procs - {p})
    case Return(p) => w.(scratch := w.procs[p].saved, lock := None, procs := w.procs - {p})
    case Load(p) => w.(procs := w.procs[p := Writing(w.current)])
    case Republish(p, meta) =>
      var b := w.procs[p].bundle;
      var done := w.(procs := w.procs - {p});
      if w.current == b then done.(bundles := w.bundles + [w.bundles[b].(meta := meta)], current := |w.bundles|) else done
    case Read(p) => w.(procs := w.procs[p := Reading(w.current)])
    case Leave(p) => w.(procs := w.procs - {p})
  }

  /** What a store says: its facts in order. */
  function Said(w: World, s: StoreId): seq<Option<Value>> {
    if s in w.stores
    then seq(|w.stores[s]|, i requires 0 <= i < |w.stores[s]| => if w.stores[s][i] in w.heap then Some(w.heap[w.stores[s][i]]) else None)
    else []
  }

  // ---- Invariant ----

  ghost predicate CellsIn(heap: map<Cell, Value>, cells: seq<Cell>, next: nat) {
    forall c :: c in cells ==> c in heap && c < next
  }

  ghost predicate Disjoint(a: seq<Cell>, b: seq<Cell>) {
    forall c :: c in a ==> c !in b
  }

  ghost predicate Allocated(w: World) {
    && (forall c :: c in w.heap ==> c < w.nextCell)
    && (forall s :: s in w.stores ==> s < w.nextStore && CellsIn(w.heap, w.stores[s], w.nextCell))
    && w.current < |w.bundles| && w.scratch in w.stores
    && (forall i :: 0 <= i < |w.bundles| ==> w.bundles[i].store in w.stores)
  }

  /** What a process holds exists. */
  ghost predicate Holding(w: World) {
    forall p :: p in w.procs ==>
      && (Active(w.procs[p]) ==> w.procs[p].store in w.stores)
      && (w.procs[p].Borrowing? ==> w.procs[p].saved in w.stores)
      && (w.procs[p].Writing? || w.procs[p].Reading? ==> w.procs[p].bundle < |w.bundles|)
  }

  /** The lock's holder is the only one to work on the scratch store. */
  ghost predicate Locked(w: World) {
    && (forall p :: p in w.procs && (w.procs[p].Building? || w.procs[p].Borrowing?) ==> w.lock == Some(p) && w.scratch == w.procs[p].store)
    && (w.lock.Some? ==> w.lock.value in w.procs && (w.procs[w.lock.value].Building? || w.procs[w.lock.value].Borrowing?))
  }

  /** The store being built is published nowhere and shares no cell with any other. */
  ghost predicate Alone(w: World, s: StoreId)
    requires s in w.stores
  {
    && (forall i :: 0 <= i < |w.bundles| ==> w.bundles[i].store != s)
    && (forall t :: t in w.stores && t != s ==> Disjoint(w.stores[t], w.stores[s]))
  }

  ghost predicate Private(w: World)
    requires Holding(w)
  {
    && (forall p :: p in w.procs && Active(w.procs[p]) ==> Alone(w, w.procs[p].store))
    && (forall p, q :: p in w.procs && q in w.procs && p != q && Active(w.procs[p]) && Active(w.procs[q]) ==> w.procs[p].store != w.procs[q].store)
  }

  ghost predicate Inv(w: World) {
    Allocated(w) && Holding(w) && Locked(w) && Private(w)
  }

  lemma {:induction false} CopyHeapHolds(heap: map<Cell, Value>, from: seq<Cell>, next: nat)
    requires forall c :: c in heap ==> c < next
    requires forall c :: c in from ==> c in heap
    ensures forall c :: c in heap ==> c in CopyHeap(heap, from, next) && CopyHeap(heap, from, next)[c] == heap[c]
    ensures forall c :: next <= c < next + |from| ==>
      c in CopyHeap(heap, from, next) && CopyHeap(heap, from, next)[c] == heap[from[c - next]]
    ensures forall c :: c in CopyHeap(heap, from, next) ==> c < next + |from|
    decreases |from|
  {
    if from != [] {
      CopyHeapHolds(heap, from[..|from| - 1], next);
    }
  }

  /** The scratch pointer leads a builder to its own store. */
  lemma TargetIsOwn(w: World, p: nat)
    requires Inv(w) && p in w.procs && Active(w.procs[p])
    ensures Target(w, p) == w.procs[p].store && Target(w, p) in w.stores
  {
    hide Private, Allocated;
  }

  predicate Starts(e: Event) {
    e.Generate? || e.Extract? || e.Restore?
  }

  predicate Works(e: Event) {
    e.Change? || e.Add? || e.Remove? || e.Freeze?
  }

  // ---- A new store ----

  lemma StartHeapGrows(w: World, e: Event)
    requires Inv(w) && Enabled(w, e) && Starts(e)
    ensures
      var v := Next(w, e);
      && v.nextCell >= w.nextCell && v.nextStore == w.nextStore + 1 && w.nextStore !in w.stores
      && v.stores.Keys == w.stores.Keys + {w.nextStore} && (forall s :: s in w.stores ==> v.stores[s] == w.stores[s])
      && (forall c :: c in w.heap ==> c in v.heap && v.heap[c] == w.heap[c])
      && (forall c :: c in v.heap ==> c < v.nextCell)
      && CellsIn(v.heap, v.stores[w.nextStore], v.nextCell)
      && (forall c :: c in v.stores[w.nextStore] ==> c >= w.nextCell)
  {
    hide CopyHeap, Private, Locked, Holding;
    if e.Generate? {
      var from := if e.append then w.stores[w.bundles[w.current].store] else [];
      CopyHeapHolds(w.heap, from, w.nextCell);
      forall c | c in Fresh(w.nextCell, |from|) ensures c in CopyHeap(w.heap, from, w.nextCell) && w.nextCell <= c < w.nextCell + |from| {
        var i :| 0 <= i < |from| && c == Fresh(w.nextCell, |from|)[i];
        assert from[i] in w.heap;
      }
    }
  }

  lemma StartShape(w: World, e: Event)
    requires Inv(w) && Enabled(w, e) && Starts(e)
    ensures
      var v := Next(w, e);
      && v.bundles == w.bundles && v.current == w.current
      && e.p !in w.procs && e.p in v.procs && v.procs == w.procs[e.p := v.procs[e.p]]
      && Active(v.procs[e.p]) && v.procs[e.p].store == w.nextStore
  {
    hide CopyHeap, Fresh, Locked, Private, Allocated;
  }

  lemma StartAllocates(w: World, e: Event)
    requires Inv(w) && Enabled(w, e) && Starts(e)
    ensures Allocated(Next(w, e)) && Holding(Next(w, e)) && Locked(Next(w, e))
  {
    hide Inv, Allocated, Holding, Locked, Next, Enabled;
    StartFindsRoom(w, e);
    StartHolds(w, e);
  }

  lemma StartFindsRoom(w: World, e: Event)
    requires Inv(w) && Enabled(w, e) && Starts(e)
    ensures Allocated(Next(w, e))
  {
    StartHeapGrows(w, e);
    StartShape(w, e);
    StartScratch(w, e);
    hide Private, Locked, Holding, Next, Enabled;
    var v := Next(w, e);
    forall s | s in v.stores ensures s < v.nextStore && CellsIn(v.heap, v.stores[s], v.nextCell) {
    }
  }

  lemma StartScratch(w: World, e: Event)
    requires Inv(w) && Enabled(w, e) && Starts(e)
    ensures Next(w, e).scratch in Next(w, e).stores
  {
    hide Private, Locked, Holding, CopyHeap, Fresh;
  }

  lemma StartHolds(w: World, e: Event)
    requires Inv(w) && Enabled(w, e) && Starts(e)
    ensures Holding(Next(w, e)) && Locked(Next(w, e))
  {
    hide CopyHeap, Private, Fresh, CellsIn;
  }

  lemma StartsApart(w: World, e: Event)
    requires Inv(w) && Enabled(w, e) && Starts(e)
    ensures
      var v := Next(w, e);
      && w.nextStore in v.stores && w.nextStore !in w.stores
      && forall s :: s in w.stores ==>
        s in v.stores && Disjoint(v.stores[s], v.stores[w.nextStore]) && Disjoint(v.stores[w.nextStore], v.stores[s])
  {
    StartHeapGrows(w, e);
    hide Next, Locked, Private, Holding, Enabled;
    var v, n := Next(w, e), w.nextStore;
    forall s | s in w.stores ensures Disjoint(v.stores[s], v.stores[n]) && Disjoint(v.stores[n], v.stores[s]) {
      assert CellsIn(w.heap, w.stores[s], w.nextCell);
    }
  }

  lemma StartIsPrivate(w: World, e: Event)
    requires Inv(w) && Enabled(w, e) && Starts(e) && Holding(Next(w, e))
    ensures Private(Next(w, e))
  {
    StartHeapGrows(w, e);
    StartShape(w, e);
    StartsApart(w, e);
    hide Next, Locked, Disjoint, CellsIn, Enabled;
    var v, n := Next(w, e), w.nextStore;
    forall p | p in w.procs && Active(w.procs[p]) ensures Alone(v, w.procs[p].store) && w.procs[p].store != n {
      assert Alone(w, w.procs[p].store);
    }
    assert Alone(v, n);
  }

  /** A start leaves every store as it was. */
  lemma StartSaysNothing(w: World, e: Event, s: StoreId)
    requires Inv(w) && Enabled(w, e) && Starts(e) && s in w.stores
    ensures s in Next(w, e).stores && Said(Next(w, e), s) == Said(w, s)
  {
    StartHeapGrows(w, e);
    hide CopyHeap, Fresh, Locked, Private, Holding, Next;
    assert CellsIn(w.heap, w.stores[s], w.nextCell);
  }

  /** A generate starts from nothing, or in append mode from copies of the published facts. */
  lemma GenerateStarts(w: World, p: nat, append: bool)
    requires Inv(w) && Enabled(w, Generate(p, append))
    ensures Said(Next(w, Generate(p, append)), w.nextStore) == if append then Said(w, w.bundles[w.current].store) else []
  {
    hide Locked, Private, Holding;
    if append {
      var from := w.stores[w.bundles[w.current].store];
      assert CellsIn(w.heap, from, w.nextCell);
      CopyHeapHolds(w.heap, from, w.nextCell);
      hide CopyHeap;
      var v := Next(w, Generate(p, append));
      assert |Said(v, w.nextStore)| == |from|;
      forall i | 0 <= i < |from| ensures Said(v, w.nextStore)[i] == Said(w, w.bundles[w.current].store)[i] {
        assert v.stores[w.nextStore][i] == w.nextCell + i;
        assert from[i] in w.heap;
      }
    }
  }

  // ---- Work on a store ----

  /** A builder's event changes its own store's list, the values in its own cells, and fresh cells. */
  lemma WorkShape(w: World, e: Event)
    requires Inv(w) && Enabled(w, e) && Works(e)
    ensures
      var v, own := Next(w, e), w.procs[e.p].store;
      && v == w.(heap := v.heap, nextCell := v.nextCell, stores := w.stores[own := v.stores[own]])
      && own in w.stores && v.nextCell >= w.nextCell
      && (forall c :: c in v.stores[own] ==> c in w.stores[own] || c == w.nextCell)
      && (forall c :: c in w.heap ==> c in v.heap && (c !in w.stores[own] ==> v.heap[c] == w.heap[c]))
      && (forall c :: c in v.heap ==> c < v.nextCell)
      && CellsIn(v.heap, v.stores[own], v.nextCell)
  {
    TargetIsOwn(w, e.p);
    hide Private, Locked;
    var v, own := Next(w, e), w.procs[e.p].store;
    assert CellsIn(w.heap, w.stores[own], w.nextCell);
    forall c | c in v.stores[own] ensures c in v.heap && c < v.nextCell && (c in w.stores[own] || c == w.nextCell) {
      if !e.Add? {
        assert c in w.stores[own];
      }
    }
  }

  lemma WorkAllocates(w: World, e: Event)
    requires Inv(w) && Enabled(w, e) && Works(e)
    ensures Allocated(Next(w, e)) && Holding(Next(w, e)) && Locked(Next(w, e))
  {
    WorkShape(w, e);
    hide Private, Next;
    var v := Next(w, e);
    forall s | s in v.stores ensures s < v.nextStore && CellsIn(v.heap, v.stores[s], v.nextCell) {
      assert CellsIn(w.heap, w.stores[s], w.nextCell);
    }
  }

  lemma WorkIsPrivate(w: World, e: Event)
    requires Inv(w) && Enabled(w, e) && Works(e) && Holding(Next(w, e))
    ensures Private(Next(w, e))
  {
    WorkShape(w, e);
    hide Locked, Next;
    var v, own := Next(w, e), w.procs[e.p].store;
    forall s | s in w.stores && s != own ensures Disjoint(v.stores[s], v.stores[own]) && Disjoint(v.stores[own], v.stores[s]) {
      assert CellsIn(w.heap, w.stores[s], w.nextCell);
      assert Alone(w, own);
      assert Disjoint(w.stores[s], w.stores[own]);
    }
    hide Disjoint, CellsIn;
    forall p | p in w.procs && Active(w.procs[p]) ensures Alone(v, w.procs[p].store) {
      assert Alone(w, w.procs[p].store);
    }
  }

  /** A builder's work changes what its own store says and no other. */
  lemma WorkSaysOwn(w: World, e: Event, s: StoreId)
    requires Inv(w) && Enabled(w, e) && Works(e) && s in w.stores && s != w.procs[e.p].store
    ensures s in Next(w, e).stores && Said(Next(w, e), s) == Said(w, s)
  {
    WorkShape(w, e);
    assert Alone(w, w.procs[e.p].store);
    assert Disjoint(w.stores[s], w.stores[w.procs[e.p].store]);
    assert CellsIn(w.heap, w.stores[s], w.nextCell);
    hide Private, Locked, Holding, Next;
  }

  /** The value at every place that shares the fact at `i` is now this. */
  ghost predicate ChangesShared(was: seq<Option<Value>>, now: seq<Option<Value>>, cells: seq<Cell>, i: nat, v: Value) {
    && i < |was| == |now| == |cells|
    && forall j :: 0 <= j < |was| ==> now[j] == if cells[j] == cells[i] then Some(v) else was[j]
  }

  /** What a builder's own step does to what its store says. A change reaches every place that shares
      the fact, and sharing equal facts says nothing new. */
  lemma WorkSays(w: World, e: Event)
    requires Inv(w) && Enabled(w, e) && Works(e)
    ensures
      var v, own := Next(w, e), w.procs[e.p].store;
      var was, now := Said(w, own), Said(v, own);
      && (e.Add? ==> now == was + [Some(e.v)])
      && (e.Remove? ==> e.i < |was| && now == was[..e.i] + was[e.i + 1..])
      && (e.Change? ==> own in w.stores && ChangesShared(was, now, w.stores[own], e.i, e.v))
      && (e.Freeze? ==> now == was)
  {
    TargetIsOwn(w, e.p);
    assert CellsIn(w.heap, w.stores[w.procs[e.p].store], w.nextCell);
    hide Private, Locked, Holding, Allocated;
  }

  /** A restore and a file extraction start from an empty store. */
  lemma StartsEmpty(w: World, e: Event)
    requires Inv(w) && Enabled(w, e) && (e.Extract? || e.Restore?)
    ensures w.nextStore in Next(w, e).stores && Said(Next(w, e), w.nextStore) == []
  {
    hide Private, Locked, Holding;
  }

  // ---- Publishing, loading and leaving ----

  lemma RestShape(w: World, e: Event)
    requires Inv(w) && Enabled(w, e) && !Starts(e) && !Works(e)
    ensures
      var v := Next(w, e);
      && v.heap == w.heap && v.stores == w.stores && v.nextCell == w.nextCell && v.nextStore == w.nextStore
      && w.bundles <= v.bundles && |v.bundles| <= |w.bundles| + 1
      && (forall p :: p in v.procs && p != e.p ==> p in w.procs && v.procs[p] == w.procs[p])
      && (forall p :: p in w.procs && p != e.p ==> p in v.procs)
      && (e.p in v.procs ==> !Active(v.procs[e.p]))
      && (|v.bundles| > |w.bundles| ==>
            || v.bundles[|w.bundles|].store == w.bundles[w.current].store
            || (e.Publish? && v.bundles[|w.bundles|].store == w.procs[e.p].store))
  {
    hide Private, Locked;
  }

  lemma RestAllocates(w: World, e: Event)
    requires Inv(w) && Enabled(w, e) && !Starts(e) && !Works(e)
    ensures Allocated(Next(w, e)) && Holding(Next(w, e)) && Locked(Next(w, e))
  {
    hide Private, CellsIn;
  }

  lemma RestIsPrivate(w: World, e: Event)
    requires Inv(w) && Enabled(w, e) && !Starts(e) && !Works(e) && Holding(Next(w, e))
    ensures Private(Next(w, e))
  {
    RestShape(w, e);
    hide Locked, Next, Disjoint, CellsIn;
    var v := Next(w, e);
    forall p | p in v.procs && Active(v.procs[p]) ensures Alone(v, v.procs[p].store) {
      assert p in w.procs && Alone(w, w.procs[p].store);
    }
  }

  lemma StepKeeps(w: World, e: Event)
    requires Inv(w) && Enabled(w, e)
    ensures Inv(Next(w, e))
  {
    hide Private, Locked, Holding, Allocated, Next, Enabled;
    if Starts(e) {
      StartAllocates(w, e);
      StartIsPrivate(w, e);
    } else if Works(e) {
      WorkAllocates(w, e);
      WorkIsPrivate(w, e);
    } else {
      RestAllocates(w, e);
      RestIsPrivate(w, e);
    }
  }

  // ---- What readers see ----

  /** No step changes a bundle, or what its store says. */
  lemma PublishedKept(w: World, e: Event, i: nat)
    requires Inv(w) && Enabled(w, e) && i < |w.bundles|
    ensures
      var v := Next(w, e);
      i < |v.bundles| && v.bundles[i] == w.bundles[i] && Said(v, v.bundles[i].store) == Said(w, w.bundles[i].store)
  {
    hide Next, Locked, Said;
    var s := w.bundles[i].store;
    if Starts(e) {
      StartShape(w, e);
      StartSaysNothing(w, e, s);
    } else if Works(e) {
      WorkShape(w, e);
      assert Alone(w, w.procs[e.p].store);
      WorkSaysOwn(w, e, s);
    } else {
      RestShape(w, e);
      SameSaid(w, Next(w, e), s);
    }
  }

  lemma SameSaid(w: World, v: World, s: StoreId)
    requires v.heap == w.heap && v.stores == w.stores
    ensures Said(v, s) == Said(w, s)
  {
  }

  /** What a builder has built changes only by its own steps. */
  lemma BuilderUndisturbed(w: World, e: Event, p: nat)
    requires Inv(w) && Enabled(w, e) && p in w.procs && Active(w.procs[p]) && e.p != p
    ensures
      var v := Next(w, e);
      p in v.procs && v.procs[p] == w.procs[p] && Said(v, v.procs[p].store) == Said(w, w.procs[p].store)
  {
    hide Next, Locked, Said, Allocated, Alone;
    var s := w.procs[p].store;
    if Starts(e) {
      StartShape(w, e);
      StartSaysNothing(w, e, s);
    } else if Works(e) {
      WorkShape(w, e);
      WorkSaysOwn(w, e, s);
    } else {
      RestShape(w, e);
      SameSaid(w, Next(w, e), s);
    }
  }

  /** Only publishing changes which store readers get, and it takes the next turn. */
  lemma OnlyPublishing(w: World, e: Event)
    requires Inv(w) && Enabled(w, e)
    ensures
      var v := Next(w, e);
      && v.current < |v.bundles|
      && (e.Publish? ==> v.bundles[v.current] == Bundle(w.procs[e.p].store, w.bundles[w.current].turn + 1, e.meta))
      && (!e.Publish? ==> v.bundles[v.current].store == w.bundles[w.current].store && v.bundles[v.current].turn == w.bundles[w.current].turn)
  {
    hide Private, Locked, CopyHeap;
  }

  // ---- Runs ----

  predicate Legal(w: World, es: seq<Event>)
    decreases |es|
  {
    es == [] || (Enabled(w, es[0]) && Legal(Next(w, es[0]), es[1..]))
  }

  function After(w: World, es: seq<Event>): World
    requires Legal(w, es)
    decreases |es|
  {
    if es == [] then w else After(Next(w, es[0]), es[1..])
  }

  function Publications(es: seq<Event>): nat {
    if es == [] then 0 else (if es[0].Publish? then 1 else 0) + Publications(es[1..])
  }

  lemma InitHolds()
    ensures Inv(INIT)
  {
  }

  lemma {:induction false} RunKeeps(w: World, es: seq<Event>)
    requires Inv(w) && Legal(w, es)
    ensures Inv(After(w, es))
    decreases |es|
  {
    hide Inv, Next, Enabled;
    if es != [] {
      StepKeeps(w, es[0]);
      RunKeeps(Next(w, es[0]), es[1..]);
    }
  }

  /** Whatever a reader loaded stays as it was, through every interleaving that follows. */
  lemma {:induction false} ReadersUndisturbed(w: World, es: seq<Event>, i: nat)
    requires Inv(w) && Legal(w, es) && i < |w.bundles|
    ensures
      var v := After(w, es);
      i < |v.bundles| && v.bundles[i] == w.bundles[i] && Said(v, v.bundles[i].store) == Said(w, w.bundles[i].store)
    decreases |es|
  {
    hide Inv, Next, Enabled, Said;
    if es != [] {
      StepKeeps(w, es[0]);
      PublishedKept(w, es[0], i);
      ReadersUndisturbed(Next(w, es[0]), es[1..], i);
    }
  }

  /** In every run the current bundle is of the latest publication: no artifact write has put an
      older one back. */
  lemma {:induction false} LatestStaysCurrent(w: World, es: seq<Event>)
    requires Inv(w) && Legal(w, es)
    ensures Inv(After(w, es))
    ensures
      var v := After(w, es);
      w.current < |w.bundles| && v.current < |v.bundles| && v.bundles[v.current].turn == w.bundles[w.current].turn + Publications(es)
    decreases |es|
  {
    hide Next, Enabled, Private, Locked, Holding;
    if es != [] {
      StepKeeps(w, es[0]);
      OnlyPublishing(w, es[0]);
      LatestStaysCurrent(Next(w, es[0]), es[1..]);
    }
  }

  /** From the start: after any run a reader sees the store of the latest publication, and what
      it loads then never changes. */
  lemma Published(es: seq<Event>, more: seq<Event>)
    requires Legal(INIT, es) && Legal(After(INIT, es), more)
    ensures
      var v, u := After(INIT, es), After(After(INIT, es), more);
      && v.current < |v.bundles| && v.bundles[v.current].turn == Publications(es)
      && v.current < |u.bundles| && u.bundles[v.current] == v.bundles[v.current]
      && Said(u, v.bundles[v.current].store) == Said(v, v.bundles[v.current].store)
  {
    hide Next, Enabled, Legal, After, Said, Private, Locked, Holding;
    InitHolds();
    LatestStaysCurrent(INIT, es);
    ReadersUndisturbed(After(INIT, es), more, After(INIT, es).current);
  }

  // ---- Republishing ----

  /** Makes another bundle current. */
  predicate Replaces(w: World, e: Event)
    requires Enabled(w, e)
  {
    e.Publish? || (e.Republish? && w.procs[e.p].bundle == w.current)
  }

  /** Something was published or republished in the run. */
  predicate Replaced(w: World, es: seq<Event>)
    requires Legal(w, es)
    decreases |es|
  {
    es != [] && (Replaces(w, es[0]) || Replaced(Next(w, es[0]), es[1..]))
  }

  predicate Without(p: nat, es: seq<Event>) {
    forall i :: 0 <= i < |es| ==> es[i].p != p
  }

  lemma StepMoves(w: World, e: Event, p: nat)
    requires Inv(w) && Enabled(w, e)
    ensures Next(w, e).current >= w.current && (Next(w, e).current == w.current <==> !Replaces(w, e))
    ensures e.p != p && p in w.procs ==> p in Next(w, e).procs && Next(w, e).procs[p] == w.procs[p]
  {
    hide Private, Locked, Holding, CopyHeap, Fresh, Shares;
  }

  lemma {:induction false} RunMoves(w: World, es: seq<Event>, p: nat)
    requires Inv(w) && Legal(w, es) && Without(p, es) && p in w.procs
    ensures
      var u := After(w, es);
      && u.current >= w.current && (u.current == w.current <==> !Replaced(w, es))
      && p in u.procs && u.procs[p] == w.procs[p]
    decreases |es|
  {
    hide Inv, Next, Enabled, Replaces;
    if es != [] {
      StepKeeps(w, es[0]);
      StepMoves(w, es[0], p);
      RunMoves(Next(w, es[0]), es[1..], p);
    }
  }

  /** An artifact write that loads a bundle and republishes it after anything else has happened:
      the republish takes effect exactly when nothing was published or republished in between,
      and then readers get the loaded bundle with another meta. Else nothing changes for them. */
  lemma RepublishIsGuarded(w: World, p: nat, es: seq<Event>, meta: string)
    requires Inv(w) && Enabled(w, Load(p)) && Legal(Next(w, Load(p)), es) && Without(p, es)
    ensures
      var l := Next(w, Load(p));
      var u := After(l, es);
      && Enabled(u, Republish(p, meta))
      && var v := Next(u, Republish(p, meta));
         if Replaced(l, es) then v.current == u.current && v.bundles == u.bundles
         else v.current == |u.bundles| && v.bundles == u.bundles + [w.bundles[w.current].(meta := meta)]
  {
    var l := Next(w, Load(p));
    StepKeeps(w, Load(p));
    hide Inv, Enabled, Replaced, After, Legal, Said;
    LoadsCurrent(w, p);
    hide Next;
    RunMoves(l, es, p);
    RunKeeps(l, es);
    ReadersUndisturbed(l, es, w.current);
    Republished(After(l, es), p, meta);
  }

  lemma LoadsCurrent(w: World, p: nat)
    requires Inv(w) && Enabled(w, Load(p))
    ensures
      var l := Next(w, Load(p));
      l.current == w.current && l.current < |l.bundles| && l.bundles == w.bundles && p in l.procs && l.procs[p] == Writing(w.current)
  {
    hide Private, Locked, Holding;
  }

  lemma Republished(u: World, p: nat, meta: string)
    requires p in u.procs && u.procs[p].Writing? && u.procs[p].bundle < |u.bundles|
    ensures Enabled(u, Republish(p, meta))
    ensures
      var v, b := Next(u, Republish(p, meta)), u.procs[p].bundle;
      if u.current == b then v.current == |u.bundles| && v.bundles == u.bundles + [u.bundles[b].(meta := meta)]
      else v.current == u.current && v.bundles == u.bundles
  {
  }

  // ---- The scratch store and the lock ----

  lemma StepKeepsScratch(w: World, e: Event, p: nat)
    requires Inv(w) && Enabled(w, e) && e.p != p && p in w.procs && w.procs[p].Borrowing?
    ensures p in Next(w, e).procs && Next(w, e).procs[p] == w.procs[p]
  {
    hide Private, Allocated, CopyHeap, Fresh, Shares;
  }

  /** A file extraction that borrows the scratch store gives it back, whatever it and everything else
      did in between, and with it the lock. */
  lemma ExtractionRestores(w: World, p: nat, es: seq<Event>)
    requires Inv(w) && Enabled(w, Extract(p)) && Legal(Next(w, Extract(p)), es)
    requires forall i :: 0 <= i < |es| ==> es[i].p != p || Works(es[i])
    ensures
      var u := After(Next(w, Extract(p)), es);
      && Enabled(u, Return(p))
      && Next(u, Return(p)).scratch == w.scratch && Next(u, Return(p)).lock == None
      && Next(u, Return(p)).bundles == u.bundles && Next(u, Return(p)).current == u.current
  {
    StepKeeps(w, Extract(p));
    var l := Next(w, Extract(p));
    assert p in l.procs && l.procs[p].Borrowing? && l.procs[p].saved == w.scratch;
    hide Inv, Enabled, Legal, After;
    BorrowerStays(l, es, p);
    Returned(After(l, es), p);
  }

  lemma Returned(u: World, p: nat)
    requires p in u.procs && u.procs[p].Borrowing?
    ensures Enabled(u, Return(p))
    ensures
      var v := Next(u, Return(p));
      v.scratch == u.procs[p].saved && v.lock == None && v.bundles == u.bundles && v.current == u.current
  {
  }

  lemma {:induction false} BorrowerStays(w: World, es: seq<Event>, p: nat)
    requires Inv(w) && Legal(w, es) && p in w.procs && w.procs[p].Borrowing?
    requires forall i :: 0 <= i < |es| ==> es[i].p != p || Works(es[i])
    ensures p in After(w, es).procs && After(w, es).procs[p] == w.procs[p]
    decreases |es|
  {
    hide Inv, Next, Enabled;
    if es != [] {
      StepKeeps(w, es[0]);
      if es[0].p == p {
        WorkKeepsProcs(w, es[0]);
      } else {
        StepKeepsScratch(w, es[0], p);
      }
      BorrowerStays(Next(w, es[0]), es[1..], p);
    }
  }

  lemma WorkKeepsProcs(w: World, e: Event)
    requires Enabled(w, e) && Works(e)
    ensures Next(w, e).procs == w.procs
  {
  }

  /** A generate that ends, either way, frees the lock; one that fails leaves readers what they had. */
  lemma GenerateEnds(w: World, p: nat, meta: string)
    requires Inv(w) && p in w.procs && w.procs[p].Building?
    ensures Enabled(w, Publish(p, meta)) && Next(w, Publish(p, meta)).lock == None
    ensures Enabled(w, Fail(p)) && Next(w, Fail(p)).lock == None
    ensures Next(w, Fail(p)).bundles == w.bundles && Next(w, Fail(p)).current == w.current
  {
    hide Private, Locked, Holding;
  }
}
