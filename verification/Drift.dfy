/** The drift walk's hash memo (internal/engine/drift.go): known and remember, and the walk
    that uses them while files change under it. Times are in nanoseconds. */
module Drift {
  import opened Wrappers

  const RACY_WINDOW: int := 2_000_000_000

  type Bytes = string

  /** The inode and device a path names. */
  datatype Id = Id(ino: nat, dev: nat)

  datatype Stamp = Stamp(ctime: int, id: Id)

  /** What a stat reports. A platform without change times gives no stamp. */
  datatype Info = Info(size: nat, mtime: int, stamp: Option<Stamp>)

  datatype HashedFile = HashedFile(size: nat, mtime: int, stamp: Stamp, hash: string)

  type Memo = map<string, HashedFile>

  function KnownIn(files: Memo, path: string, info: Info): Option<string> {
    if info.stamp.None? || path !in files then None
    else
      var h := files[path];
      if h.size != info.size || h.mtime != info.mtime || h.stamp != info.stamp.value then None else Some(h.hash)
  }

  predicate Settled(now: int, info: Info) {
    info.stamp.Some? && now - info.mtime >= RACY_WINDOW && now - info.stamp.value.ctime >= RACY_WINDOW
  }

  function Remembered(files: Memo, path: string, info: Info, hash: string, now: int): Memo {
    if Settled(now, info) then files[path := HashedFile(info.size, info.mtime, info.stamp.value, hash)] else files
  }

  /** What is remembered answers for exactly the file it was remembered for, showing exactly the
      metadata it showed, and only a file unmodified for two seconds is remembered. */
  lemma RememberedAnswers(files: Memo, path: string, info: Info, hash: string, now: int, p: string, shown: Info)
    ensures
      var kept := info.stamp.Some? && now - info.mtime >= 2_000_000_000 && now - info.stamp.value.ctime >= 2_000_000_000;
      KnownIn(Remembered(files, path, info, hash, now), p, shown)
      == if kept && p == path then (if shown == info then Some(hash) else None) else KnownIn(files, p, shown)
  {
  }

  datatype Inode = Inode(bytes: Bytes, readable: bool, mtime: int, ctime: int)

  /** `granularity`: a change at time t is stamped later than t - granularity and no later than t.
      `delay`: the longest time from reading a file to remembering its hash.
      `moves`: when a directory above a path may be renamed, so that the path names another inode
      although no inode it names is stamped.
      `rebinds`: whether a path may be linked, renamed or removed, which does stamp its inodes,
      in the time from a walk's stat of it to the read. At other times it always may. */
  datatype Env = Env(hash: Bytes -> string, stamps: bool, granularity: int, delay: int, moves: Moves, rebinds: bool)

  datatype Moves = Never | OutsideWindows | Anytime

  /** Where one walk is with one path. `held` collects the hashes of what the path has held
      since the walk's stat. */
  datatype Walk =
    | Statted(path: string, info: Info, id: Id, held: set<string>)
    | Missed(path: string, info: Info, id: Id, held: set<string>)
    | HasRead(path: string, info: Info, id: Id, held: set<string>, readAt: int, hash: string)
    | Answered(path: string, held: set<string>, hash: string)

  datatype World = World(now: int, names: map<string, Id>, inodes: map<Id, Inode>, memo: Memo, walks: map<nat, Walk>)

  datatype Event =
    | Tick(until: int)
    | Modify(id: Id, inode: Inode)
    | Rebind(path: string, to: Option<Id>, ctime: int)
    | MoveDir(path: string, to: Option<Id>)
    | Stat(walk: nat, path: string)
    | Look(walk: nat)
    | Read(walk: nat)
    | GiveUp(walk: nat)
    | Remember(walk: nat)
    | Done(walk: nat)

  function InfoOf(env: Env, id: Id, n: Inode): Info {
    Info(|n.bytes|, n.mtime, if env.stamps then Some(Stamp(n.ctime, id)) else None)
  }

  /** The hash of what a path holds, if it names a file that can be read. */
  function HashAt(env: Env, w: World, path: string): Option<string> {
    if path in w.names && w.names[path] in w.inodes && w.inodes[w.names[path]].readable
    then Some(env.hash(w.inodes[w.names[path]].bytes)) else None
  }

  function Seen(held: set<string>, now: Option<string>): set<string> {
    if now.Some? then held + {now.value} else held
  }

  predicate Stampable(env: Env, now: int, ctime: int) {
    now - env.granularity < ctime <= now
  }

  /** A walk is between its stat of the path and its read. */
  predicate InWindow(w: World, path: string) {
    exists k :: k in w.walks && (w.walks[k].Statted? || w.walks[k].Missed?) && w.walks[k].path == path
  }

  ghost predicate Enabled(env: Env, w: World, e: Event) {
    match e
    case Tick(until) => w.now <= until
    case Modify(id, inode) => Stampable(env, w.now, inode.ctime)
    case Rebind(path, to, ctime) =>
      && Stampable(env, w.now, ctime) && (to.Some? ==> to.value in w.inodes)
      && (!env.rebinds ==> !InWindow(w, path))
    case MoveDir(path, to) =>
      !env.moves.Never? && (env.moves.OutsideWindows? ==> !InWindow(w, path)) && (to.Some? ==> to.value in w.inodes)
    case Stat(k, path) => k !in w.walks && path in w.names && w.names[path] in w.inodes
    case Look(k) => k in w.walks && w.walks[k].Statted?
    case Read(k) => k in w.walks && w.walks[k].Missed? && HashAt(env, w, w.walks[k].path).Some?
    case GiveUp(k) => k in w.walks && w.walks[k].Missed? && HashAt(env, w, w.walks[k].path).None?
    case Done(k) => k in w.walks && w.walks[k].Answered?
    case Remember(k) => k in w.walks && w.walks[k].HasRead? && w.now <= w.walks[k].readAt + env.delay
  }

  function Stamped(inodes: map<Id, Inode>, id: Id, ctime: int): map<Id, Inode> {
    if id in inodes then inodes[id := inodes[id].(ctime := ctime)] else inodes
  }

  function Bound(names: map<string, Id>, path: string, to: Option<Id>): map<string, Id> {
    if to.Some? then names[path := to.value] else names - {path}
  }

  /** A link, a rename or a removal changes what a path names, and stamps the inode that loses
      the name and the one that gains it. */
  function Rebound(w: World, path: string, to: Option<Id>, ctime: int): World {
    var lost := if path in w.names then Stamped(w.inodes, w.names[path], ctime) else w.inodes;
    w.(names := Bound(w.names, path, to), inodes := if to.Some? then Stamped(lost, to.value, ctime) else lost)
  }

  /** What happens outside the walk. */
  function Outside(w: World, e: Event): World {
    match e
    case Tick(until) => w.(now := until)
    case Modify(id, inode) => w.(inodes := w.inodes[id := inode])
    case Rebind(path, to, ctime) => Rebound(w, path, to, ctime)
    case MoveDir(path, to) => w.(names := Bound(w.names, path, to))
    case _ => w
  }

  /** Every walk sees what its path holds now. */
  function Watch(env: Env, w: World): World {
    w.(walks := map k | k in w.walks :: w.walks[k].(held := Seen(w.walks[k].held, HashAt(env, w, w.walks[k].path))))
  }

  ghost function Next(env: Env, w: World, e: Event): World
    requires Enabled(env, w, e)
  {
    match e
    case Stat(k, path) =>
      var id := w.names[path];
      w.(walks := w.walks[k := Statted(path, InfoOf(env, id, w.inodes[id]), id, Seen({}, HashAt(env, w, path)))])
    case Look(k) =>
      var s := w.walks[k];
      var hit := KnownIn(w.memo, s.path, s.info);
      w.(walks := w.walks[k := if hit.Some? then Answered(s.path, s.held, hit.value)
                               else Missed(s.path, s.info, s.id, s.held)])
    case Read(k) =>
      var s := w.walks[k];
      w.(walks := w.walks[k := HasRead(s.path, s.info, s.id, s.held, w.now, HashAt(env, w, s.path).value)])
    case GiveUp(k) => w.(walks := w.walks - {k})
    case Done(k) => w.(walks := w.walks - {k})
    case Remember(k) =>
      var s := w.walks[k];
      w.(memo := Remembered(w.memo, s.path, s.info, s.hash, w.now),
         walks := w.walks[k := Answered(s.path, s.held, s.hash)])
    case _ => Watch(env, Outside(w, e))
  }

  ghost predicate Legal(env: Env, w: World, es: seq<Event>)
    decreases |es|
  {
    es == [] || (Enabled(env, w, es[0]) && Legal(env, Next(env, w, es[0]), es[1..]))
  }

  ghost function After(env: Env, w: World, es: seq<Event>): World
    requires Legal(env, w, es)
    decreases |es|
  {
    if es == [] then w else After(env, Next(env, w, es[0]), es[1..])
  }

  /** Every answer is the hash of something the path held since the walk's stat. */
  ghost predicate AnswersHeld(w: World) {
    forall k :: k in w.walks && w.walks[k].Answered? ==> w.walks[k].hash in w.walks[k].held
  }

  ghost predicate Fresh(w: World) {
    w.memo == map[] && w.walks == map[]
  }

  ghost predicate Sound(env: Env) {
    forall w: World, es: seq<Event> :: Fresh(w) && Legal(env, w, es) ==> AnswersHeld(After(env, w, es))
  }

  /** Directories never move, or what a path names changes only outside the time from a walk's
      stat of it to the read. */
  predicate Steady(env: Env) {
    env.moves.Never? || (env.moves.OutsideWindows? && !env.rebinds)
  }

  /** The racy window covers the clock's granularity and the delay together. */
  predicate Timely(env: Env) {
    env.granularity + env.delay <= RACY_WINDOW && Steady(env)
  }

  /** `hash` is right for every file that shows change time `ctime`. */
  ghost predicate Fits(env: Env, w: World, path: string, id: Id, ctime: int, hash: string) {
    && ((env.moves.OutsideWindows? || (path in w.names && w.names[path] == id)) && id in w.inodes && w.inodes[id].ctime == ctime ==>
          w.inodes[id].readable && env.hash(w.inodes[id].bytes) == hash)
    && forall k :: k in w.walks && w.walks[k].Statted? && w.walks[k].path == path && w.walks[k].info.stamp == Some(Stamp(ctime, id)) ==>
          hash in w.walks[k].held
  }

  ghost predicate MemoFits(env: Env, w: World) {
    forall p :: p in w.memo ==>
      && w.memo[p].stamp.ctime <= w.now - env.granularity
      && Fits(env, w, p, w.memo[p].stamp.id, w.memo[p].stamp.ctime, w.memo[p].hash)
  }

  ghost predicate WalkFits(env: Env, w: World, s: Walk) {
    && (s.Statted? || s.Missed? ==>
          && (env.moves.OutsideWindows? ==> s.path in w.names && w.names[s.path] == s.id)
          && (HashAt(env, w, s.path).Some? ==> HashAt(env, w, s.path).value in s.held))
    && (!s.Answered? && s.info.stamp.Some? ==> env.stamps && s.info.stamp.value.id == s.id)
    && (s.HasRead? ==>
          && s.readAt <= w.now && s.hash in s.held
          && (s.info.stamp.Some? && s.info.stamp.value.ctime <= s.readAt - env.granularity ==>
                Fits(env, w, s.path, s.id, s.info.stamp.value.ctime, s.hash)))
    && (s.Answered? ==> s.hash in s.held)
  }

  ghost predicate Inv(env: Env, w: World) {
    && MemoFits(env, w)
    && forall k :: k in w.walks ==> WalkFits(env, w, w.walks[k])
  }

  /** A change stamped from now on cannot carry a change time this old. */
  lemma FitsKept(env: Env, w: World, e: Event, path: string, id: Id, ctime: int, hash: string)
    requires Enabled(env, w, e)
    requires Fits(env, w, path, id, ctime, hash) && ctime <= w.now - env.granularity && Steady(env)
    ensures Fits(env, Next(env, w, e), path, id, ctime, hash)
  {
    hide KnownIn, Remembered;
    var v := Next(env, w, e);
    forall k | k in v.walks && v.walks[k].Statted? && v.walks[k].path == path && v.walks[k].info.stamp == Some(Stamp(ctime, id))
      ensures hash in v.walks[k].held
    {
      if !e.Stat? || e.walk != k {
        assert k in w.walks && w.walks[k].Statted?;
      }
    }
  }

  /** A hash remembered under a settled stat is right for as long as the change time shows. */
  lemma RememberedFits(env: Env, w: World, k: nat)
    requires Inv(env, w) && Enabled(env, w, Remember(k)) && Timely(env) && Settled(w.now, w.walks[k].info)
    ensures
      var s := w.walks[k];
      var c := s.info.stamp.value.ctime;
      c <= w.now - env.granularity && Fits(env, w, s.path, s.id, c, s.hash)
  {
    hide Fits, MemoFits;
    assert WalkFits(env, w, w.walks[k]);
  }

  lemma MemoKept(env: Env, w: World, e: Event)
    requires Inv(env, w) && Enabled(env, w, e) && Timely(env)
    ensures MemoFits(env, Next(env, w, e))
  {
    hide Fits, KnownIn, WalkFits, Settled, HashAt;
    var v := Next(env, w, e);
    forall p | p in v.memo
      ensures v.memo[p].stamp.ctime <= v.now - env.granularity
      ensures Fits(env, v, p, v.memo[p].stamp.id, v.memo[p].stamp.ctime, v.memo[p].hash)
    {
      var h := v.memo[p];
      if e.Remember? && v.memo != w.memo && p == w.walks[e.walk].path {
        RememberedFits(env, w, e.walk);
        StampIsId(env, w, e.walk);
      }
      FitsKept(env, w, e, p, h.stamp.id, h.stamp.ctime, h.hash);
    }
  }

  lemma StampIsId(env: Env, w: World, k: nat)
    requires Inv(env, w) && Enabled(env, w, Remember(k)) && Settled(w.now, w.walks[k].info)
    ensures w.walks[k].info.stamp.value.id == w.walks[k].id
  {
    assert WalkFits(env, w, w.walks[k]);
  }

  /** A hit is the hash of something the path has held since the stat. */
  lemma HitHeld(env: Env, w: World, k: nat)
    requires Inv(env, w) && Enabled(env, w, Look(k))
    requires KnownIn(w.memo, w.walks[k].path, w.walks[k].info).Some?
    ensures KnownIn(w.memo, w.walks[k].path, w.walks[k].info).value in w.walks[k].held
  {
    var s := w.walks[k];
    var h := w.memo[s.path];
    assert Fits(env, w, s.path, h.stamp.id, h.stamp.ctime, h.hash);
  }

  /** What a walk has just read is right for the stat before it, if no change from now on can
      show that stat's change time. */
  lemma ReadFits(env: Env, w: World, k: nat)
    requires Inv(env, w) && Enabled(env, w, Read(k)) && w.walks[k].info.stamp.Some?
    ensures Fits(env, w, w.walks[k].path, w.walks[k].id, w.walks[k].info.stamp.value.ctime, HashAt(env, w, w.walks[k].path).value)
    ensures HashAt(env, w, w.walks[k].path).value in w.walks[k].held
  {
    hide MemoFits;
    var s := w.walks[k];
    assert WalkFits(env, w, s);
    forall j | j in w.walks && w.walks[j].Statted? && w.walks[j].path == s.path
      ensures HashAt(env, w, s.path).value in w.walks[j].held
    {
      assert WalkFits(env, w, w.walks[j]);
    }
  }

  predicate IsOutside(e: Event) {
    e.Tick? || e.Modify? || e.Rebind? || e.MoveDir?
  }

  /** A change outside a walk is seen by it, and leaves what it read right. */
  lemma WalkWatches(env: Env, w: World, e: Event, k: nat)
    requires Inv(env, w) && Enabled(env, w, e) && IsOutside(e) && Steady(env) && k in w.walks
    ensures WalkFits(env, Next(env, w, e), Next(env, w, e).walks[k])
  {
    hide MemoFits, Fits;
    var v, s := Next(env, w, e), w.walks[k];
    assert WalkFits(env, w, s);
    if s.HasRead? && s.info.stamp.Some? && s.info.stamp.value.ctime <= s.readAt - env.granularity {
      FitsKept(env, w, e, s.path, s.id, s.info.stamp.value.ctime, s.hash);
    }
  }

  lemma WalkSteps(env: Env, w: World, e: Event, k: nat)
    requires Inv(env, w) && Enabled(env, w, e) && !IsOutside(e) && Steady(env) && k in Next(env, w, e).walks
    ensures WalkFits(env, Next(env, w, e), Next(env, w, e).walks[k])
  {
    hide MemoFits, Fits, KnownIn, Remembered, Settled, HashAt;
    if k in w.walks {
      var s := w.walks[k];
      assert WalkFits(env, w, s);
      if s.HasRead? && s.info.stamp.Some? && s.info.stamp.value.ctime <= s.readAt - env.granularity {
        FitsKept(env, w, e, s.path, s.id, s.info.stamp.value.ctime, s.hash);
      }
      if e == Look(k) && KnownIn(w.memo, s.path, s.info).Some? {
        HitHeld(env, w, k);
      }
      if e == Read(k) && s.info.stamp.Some? && s.info.stamp.value.ctime <= w.now - env.granularity {
        ReadFits(env, w, k);
        FitsKept(env, w, e, s.path, s.id, s.info.stamp.value.ctime, HashAt(env, w, s.path).value);
      }
    }
    SameHashes(env, w, e);
  }

  lemma SameHashes(env: Env, w: World, e: Event)
    requires Enabled(env, w, e) && !IsOutside(e)
    ensures forall p :: HashAt(env, Next(env, w, e), p) == HashAt(env, w, p)
  {
  }

  lemma OutsideKeepsKeys(env: Env, w: World, e: Event)
    requires Enabled(env, w, e) && IsOutside(e)
    ensures Next(env, w, e).walks.Keys == w.walks.Keys
  {
  }

  lemma StepKeeps(env: Env, w: World, e: Event)
    requires Inv(env, w) && Enabled(env, w, e) && Timely(env)
    ensures Inv(env, Next(env, w, e))
  {
    hide MemoFits, WalkFits, Next, Enabled;
    MemoKept(env, w, e);
    forall k | k in Next(env, w, e).walks ensures WalkFits(env, Next(env, w, e), Next(env, w, e).walks[k]) {
      if IsOutside(e) {
        OutsideKeepsKeys(env, w, e);
        WalkWatches(env, w, e, k);
      } else {
        WalkSteps(env, w, e, k);
      }
    }
  }

  // ---- Without change times nothing is remembered ----

  ghost predicate Unstamped(env: Env, w: World) {
    && w.memo == map[]
    && forall k :: k in w.walks ==>
      var s := w.walks[k];
      && (!s.Answered? ==> s.info.stamp.None?)
      && (s.HasRead? || s.Answered? ==> s.hash in s.held)
      && (s.Statted? || s.Missed? ==> HashAt(env, w, s.path).Some? ==> HashAt(env, w, s.path).value in s.held)
  }

  lemma UnstampedKept(env: Env, w: World, e: Event)
    requires Unstamped(env, w) && Enabled(env, w, e) && !env.stamps
    ensures Unstamped(env, Next(env, w, e))
  {
    hide InWindow;
  }

  // ---- Runs ----

  lemma {:induction false} RunKeeps(env: Env, w: World, es: seq<Event>)
    requires Inv(env, w) && Legal(env, w, es) && Timely(env)
    ensures Inv(env, After(env, w, es))
    decreases |es|
  {
    hide Inv, Next, Enabled;
    if es != [] {
      StepKeeps(env, w, es[0]);
      RunKeeps(env, Next(env, w, es[0]), es[1..]);
    }
  }

  lemma {:induction false} UnstampedRun(env: Env, w: World, es: seq<Event>)
    requires Unstamped(env, w) && Legal(env, w, es) && !env.stamps
    ensures Unstamped(env, After(env, w, es))
    decreases |es|
  {
    hide Unstamped, Next, Enabled;
    if es != [] {
      UnstampedKept(env, w, es[0]);
      UnstampedRun(env, Next(env, w, es[0]), es[1..]);
    }
  }

  lemma Prefixed(env: Env, w: World, e: Event, es: seq<Event>)
    requires Enabled(env, w, e) && Legal(env, Next(env, w, e), es)
    ensures Legal(env, w, [e] + es) && After(env, w, [e] + es) == After(env, Next(env, w, e), es)
  {
    assert ([e] + es)[1..] == es;
  }

  lemma {:induction false} Chained(env: Env, w: World, es: seq<Event>, fs: seq<Event>)
    requires Legal(env, w, es) && Legal(env, After(env, w, es), fs)
    ensures Legal(env, w, es + fs) && After(env, w, es + fs) == After(env, After(env, w, es), fs)
    decreases |es|
  {
    hide Next, Enabled;
    if es == [] {
      assert es + fs == fs;
    } else {
      Chained(env, Next(env, w, es[0]), es[1..], fs);
      assert (es + fs)[1..] == es[1..] + fs;
    }
  }

  ghost function Looked(env: Env, w: World, k: nat, p: string): World
    requires Enabled(env, w, Stat(k, p))
  {
    var id := w.names[p];
    var info, held := InfoOf(env, id, w.inodes[id]), Seen({}, HashAt(env, w, p));
    var hit := KnownIn(w.memo, p, info);
    w.(walks := w.walks[k := if hit.Some? then Answered(p, held, hit.value) else Missed(p, info, id, held)])
  }

  lemma StatThenLook(env: Env, w: World, k: nat, p: string)
    requires Enabled(env, w, Stat(k, p))
    ensures Legal(env, w, [Stat(k, p), Look(k)]) && After(env, w, [Stat(k, p), Look(k)]) == Looked(env, w, k, p)
  {
    hide KnownIn, HashAt;
    var w1 := Next(env, w, Stat(k, p));
    assert w1.walks[k := Looked(env, w, k, p).walks[k]] == Looked(env, w, k, p).walks;
    var es := [Stat(k, p), Look(k)];
    assert es[1..] == [Look(k)] && es[1..][1..] == [];
    Nothing(env, Looked(env, w, k, p));
    assert Legal(env, w1, [Look(k)]) && After(env, w1, [Look(k)]) == Looked(env, w, k, p);
  }

  /** The file of the counterexamples: one name, stamped a granule before the walk. */
  function Tree(env: Env, first: Bytes): map<Id, Inode> {
    var c := 1 - env.granularity;
    map[Id(1, 1) := Inode(first, true, c, c), Id(2, 1) := Inode("b", true, c, c)]
  }

  function Start(env: Env): World {
    World(0, map["p" := Id(1, 1)], Tree(env, "a"), map[], map[])
  }

  function FirstInfo(env: Env): Info {
    Info(1, 1 - env.granularity, Some(Stamp(1 - env.granularity, Id(1, 1))))
  }

  function FirstEntry(env: Env, hash: string): Memo {
    map["p" := HashedFile(1, 1 - env.granularity, Stamp(1 - env.granularity, Id(1, 1)), hash)]
  }

  /** An edit in the same tick of the clock as the read, remembered only after the racy window. */
  lemma SlowRemember(env: Env) returns (es: seq<Event>)
    requires env.stamps && env.granularity >= 1 && env.delay >= 0
    requires env.granularity + env.delay > RACY_WINDOW
    requires env.hash("a") != env.hash("b")
    ensures Legal(env, Start(env), es) && !AnswersHeld(After(env, Start(env), es))
  {
    var w2, w6 := Looked(env, Start(env), 0, "p"), EditedLate(env);
    StatThenLook(env, Start(env), 0, "p");
    assert {} + {env.hash("a")} == {env.hash("a")};
    assert w2.walks == map[0 := Missed("p", FirstInfo(env), Id(1, 1), {env.hash("a")})];
    var edit := Modify(Id(1, 1), Tree(env, "b")[Id(1, 1)]);
    var middle := [Read(0), edit, Tick(env.delay), Event.Remember(0)];
    EditThenRemember(env, w2, middle);
    StatThenLook(env, w6, 1, "p");
    assert {} + {env.hash("b")} == {env.hash("b")};
    assert Looked(env, w6, 1, "p").walks[1] == Answered("p", {env.hash("b")}, env.hash("a"));
    Chained(env, w2, middle, [Stat(1, "p"), Look(1)]);
    es := [Stat(0, "p"), Look(0)] + (middle + [Stat(1, "p"), Look(1)]);
    Chained(env, Start(env), [Stat(0, "p"), Look(0)], middle + [Stat(1, "p"), Look(1)]);
  }

  lemma WatchOne(env: Env, w: World, s: Walk, hash: Option<string>)
    requires w.walks == map[0 := s] && HashAt(env, w, s.path) == hash
    ensures Watch(env, w) == w.(walks := map[0 := s.(held := Seen(s.held, hash))])
  {
    assert Watch(env, w).walks == map[0 := s.(held := Seen(s.held, hash))];
  }

  function EditedLate(env: Env): World {
    World(env.delay, map["p" := Id(1, 1)], Tree(env, "b"), FirstEntry(env, env.hash("a")),
          map[0 := Answered("p", {env.hash("a"), env.hash("b")}, env.hash("a"))])
  }

  lemma EditThenRemember(env: Env, w: World, es: seq<Event>)
    requires env.stamps && env.granularity >= 1 && env.delay >= 0
    requires env.granularity + env.delay > RACY_WINDOW
    requires w == Start(env).(walks := map[0 := Missed("p", FirstInfo(env), Id(1, 1), {env.hash("a")})])
    requires es == [Read(0), Modify(Id(1, 1), Tree(env, "b")[Id(1, 1)]), Tick(env.delay), Event.Remember(0)]
    ensures Legal(env, w, es) && After(env, w, es) == EditedLate(env)
  {
    hide Legal, After;
    var ha, hb := env.hash("a"), env.hash("b");
    var read, kept := HasRead("p", FirstInfo(env), Id(1, 1), {ha}, 0, ha), HasRead("p", FirstInfo(env), Id(1, 1), {ha, hb}, 0, ha);
    var w1 := w.(walks := map[0 := read]);
    assert Tree(env, "a")[Id(1, 1) := Tree(env, "b")[Id(1, 1)]] == Tree(env, "b");
    var w2 := w.(inodes := Tree(env, "b"), walks := map[0 := kept]);
    var w3 := w2.(now := env.delay);
    assert {ha} + {hb} == {ha, hb} && {ha, hb} + {hb} == {ha, hb};
    WatchOne(env, w1.(inodes := Tree(env, "b")), read, Some(hb));
    WatchOne(env, w3, kept, Some(hb));
    hide Watch, KnownIn;
    assert Next(env, w, es[0]) == w1;
    assert Next(env, w1, es[1]) == w2;
    assert Next(env, w2, es[2]) == w3;
    assert Next(env, w3, es[3]) == EditedLate(env);
    FourSteps(env, w, w1, w2, w3, EditedLate(env), es);
  }

  lemma FourSteps(env: Env, w0: World, w1: World, w2: World, w3: World, w4: World, es: seq<Event>)
    requires |es| == 4
    requires Enabled(env, w0, es[0]) && w1 == Next(env, w0, es[0])
    requires Enabled(env, w1, es[1]) && w2 == Next(env, w1, es[1])
    requires Enabled(env, w2, es[2]) && w3 == Next(env, w2, es[2])
    requires Enabled(env, w3, es[3]) && w4 == Next(env, w3, es[3])
    ensures Legal(env, w0, es) && After(env, w0, es) == w4
  {
    hide Next, Enabled;
    assert es == [es[0], es[1], es[2], es[3]];
    assert es[1..] == [es[1], es[2], es[3]] && es[1..][1..] == [es[2], es[3]];
    assert es[1..][1..][1..] == [es[3]] && es[1..][1..][1..][1..] == [];
    Nothing(env, w4);
    assert Legal(env, w3, [es[3]]) && After(env, w3, [es[3]]) == w4;
    assert Legal(env, w2, [es[2], es[3]]) && After(env, w2, [es[2], es[3]]) == w4;
    assert Legal(env, w1, [es[1], es[2], es[3]]) && After(env, w1, [es[1], es[2], es[3]]) == w4;
  }

  lemma Nothing(env: Env, w: World)
    ensures Legal(env, w, []) && After(env, w, []) == w
  {
  }

  function MovedBack(env: Env): World {
    World(RACY_WINDOW, map["p" := Id(1, 1)], Tree(env, "a"), FirstEntry(env, env.hash("b")),
          map[0 := Answered("p", {env.hash("a"), env.hash("b")}, env.hash("b"))])
  }

  /** A directory moved away and back around the read. */
  lemma MovedAway(env: Env) returns (es: seq<Event>)
    requires env.stamps && env.granularity >= 1 && env.delay >= 0 && env.moves.Anytime?
    requires env.hash("a") != env.hash("b")
    ensures Legal(env, Start(env), es) && !AnswersHeld(After(env, Start(env), es))
  {
    var w2 := Looked(env, Start(env), 0, "p");
    StatThenLook(env, Start(env), 0, "p");
    assert {} + {env.hash("a")} == {env.hash("a")};
    assert w2.walks == map[0 := Missed("p", FirstInfo(env), Id(1, 1), {env.hash("a")})];
    var middle := [Tick(RACY_WINDOW), MoveDir("p", Some(Id(2, 1))), Read(0), MoveDir("p", Some(Id(1, 1)))];
    MoveThenRemember(env, w2, middle);
    StatThenLook(env, MovedBack(env), 1, "p");
    assert Looked(env, MovedBack(env), 1, "p").walks[1] == Answered("p", {env.hash("a")}, env.hash("b"));
    es := middle + [Event.Remember(0)];
    Chained(env, w2, es, [Stat(1, "p"), Look(1)]);
    Chained(env, Start(env), [Stat(0, "p"), Look(0)], es + [Stat(1, "p"), Look(1)]);
    es := [Stat(0, "p"), Look(0)] + (es + [Stat(1, "p"), Look(1)]);
  }

  function ReadElsewhere(env: Env): World {
    MovedBack(env).(memo := map[], walks :=
      map[0 := HasRead("p", FirstInfo(env), Id(1, 1), {env.hash("a"), env.hash("b")}, RACY_WINDOW, env.hash("b"))])
  }

  function LateStart(env: Env): World {
    World(RACY_WINDOW, map["p" := Id(1, 1)], Tree(env, "a"), map[], map[0 := Missed("p", FirstInfo(env), Id(1, 1), {env.hash("a")})])
  }

  function Elsewhere(env: Env): World {
    World(RACY_WINDOW, map["p" := Id(2, 1)], Tree(env, "a"), map[],
          map[0 := Missed("p", FirstInfo(env), Id(1, 1), {env.hash("a"), env.hash("b")})])
  }

  lemma GoAway(env: Env)
    requires env.stamps && env.moves.Anytime?
    ensures Enabled(env, LateStart(env).(now := 0), Tick(RACY_WINDOW))
    ensures Next(env, LateStart(env).(now := 0), Tick(RACY_WINDOW)) == LateStart(env)
    ensures Enabled(env, LateStart(env), MoveDir("p", Some(Id(2, 1))))
    ensures Next(env, LateStart(env), MoveDir("p", Some(Id(2, 1)))) == Elsewhere(env)
  {
    var ha, hb := env.hash("a"), env.hash("b");
    assert {ha} + {ha} == {ha} && {ha} + {hb} == {ha, hb};
    assert LateStart(env).names["p" := Id(2, 1)] == Elsewhere(env).names;
    WatchOne(env, LateStart(env), LateStart(env).walks[0], Some(ha));
    WatchOne(env, LateStart(env).(names := Elsewhere(env).names), LateStart(env).walks[0], Some(hb));
    hide Watch, InWindow;
  }

  lemma ReadAndReturn(env: Env)
    requires env.stamps && env.moves.Anytime?
    ensures
      var read := Elsewhere(env).(walks := ReadElsewhere(env).walks);
      && Enabled(env, Elsewhere(env), Read(0)) && Next(env, Elsewhere(env), Read(0)) == read
      && Enabled(env, read, MoveDir("p", Some(Id(1, 1)))) && Next(env, read, MoveDir("p", Some(Id(1, 1)))) == ReadElsewhere(env)
  {
    var ha, hb := env.hash("a"), env.hash("b");
    var read := Elsewhere(env).(walks := ReadElsewhere(env).walks);
    assert {ha, hb} + {ha} == {ha, hb};
    assert read.names["p" := Id(1, 1)] == ReadElsewhere(env).names;
    WatchOne(env, ReadElsewhere(env), read.walks[0], Some(ha));
    hide Watch, InWindow;
  }

  lemma MoveThenRead(env: Env, w: World, es: seq<Event>)
    requires env.stamps && env.granularity >= 1 && env.delay >= 0 && env.moves.Anytime?
    requires w == Start(env).(walks := map[0 := Missed("p", FirstInfo(env), Id(1, 1), {env.hash("a")})])
    requires es == [Tick(RACY_WINDOW), MoveDir("p", Some(Id(2, 1))), Read(0), MoveDir("p", Some(Id(1, 1)))]
    ensures Legal(env, w, es) && After(env, w, es) == ReadElsewhere(env)
  {
    hide Legal, After, Next, Enabled;
    GoAway(env);
    ReadAndReturn(env);
    FourSteps(env, w, LateStart(env), Elsewhere(env), Elsewhere(env).(walks := ReadElsewhere(env).walks), ReadElsewhere(env), es);
  }

  lemma MoveThenRemember(env: Env, w: World, es: seq<Event>)
    requires env.stamps && env.granularity >= 1 && env.delay >= 0 && env.moves.Anytime?
    requires w == Start(env).(walks := map[0 := Missed("p", FirstInfo(env), Id(1, 1), {env.hash("a")})])
    requires es == [Tick(RACY_WINDOW), MoveDir("p", Some(Id(2, 1))), Read(0), MoveDir("p", Some(Id(1, 1)))]
    ensures Legal(env, w, es + [Event.Remember(0)]) && After(env, w, es + [Event.Remember(0)]) == MovedBack(env)
  {
    MoveThenRead(env, w, es);
    hide Legal, After;
    assert Next(env, ReadElsewhere(env), Event.Remember(0)) == MovedBack(env);
    Nothing(env, MovedBack(env));
    Prefixed(env, ReadElsewhere(env), Event.Remember(0), []);
    assert [Event.Remember(0)] + [] == [Event.Remember(0)];
    Chained(env, w, es, [Event.Remember(0)]);
  }

  function Renamed(env: Env): World {
    Start(env).(names := map["p" := Id(2, 1)],
                walks := map[0 := Missed("p", FirstInfo(env), Id(1, 1), {env.hash("a"), env.hash("b")})])
  }

  function RememberedElsewhere(env: Env): World {
    MovedBack(env).(names := map["p" := Id(2, 1)])
  }

  lemma RenameOver(env: Env, w: World)
    requires env.stamps && env.granularity >= 1 && env.rebinds
    requires w == Start(env).(walks := map[0 := Missed("p", FirstInfo(env), Id(1, 1), {env.hash("a")})])
    ensures
      var e := Rebind("p", Some(Id(2, 1)), 1 - env.granularity);
      Enabled(env, w, e) && Next(env, w, e) == Renamed(env)
  {
    var ha, hb := env.hash("a"), env.hash("b");
    assert {ha} + {hb} == {ha, hb};
    assert w.names["p" := Id(2, 1)] == Renamed(env).names;
    assert Rebound(w, "p", Some(Id(2, 1)), 1 - env.granularity) == w.(names := Renamed(env).names);
    WatchOne(env, w.(names := Renamed(env).names), w.walks[0], Some(hb));
    hide Watch, InWindow, Rebound;
  }

  lemma RenameThenRead(env: Env, w: World, es: seq<Event>)
    requires env.stamps && env.granularity >= 1 && env.delay >= 0 && env.rebinds
    requires w == Start(env).(walks := map[0 := Missed("p", FirstInfo(env), Id(1, 1), {env.hash("a")})])
    requires es == [Rebind("p", Some(Id(2, 1)), 1 - env.granularity), Tick(RACY_WINDOW), Read(0), Event.Remember(0)]
    ensures Legal(env, w, es) && After(env, w, es) == RememberedElsewhere(env)
  {
    hide Legal, After;
    var ha, hb := env.hash("a"), env.hash("b");
    var w1, w2 := Renamed(env), Renamed(env).(now := RACY_WINDOW);
    var read := w2.(walks := map[0 := HasRead("p", FirstInfo(env), Id(1, 1), {ha, hb}, RACY_WINDOW, hb)]);
    RenameOver(env, w);
    assert {ha, hb} + {hb} == {ha, hb};
    WatchOne(env, w2, w1.walks[0], Some(hb));
    hide Watch, KnownIn, InWindow, Rebound;
    assert Next(env, w1, es[1]) == w2;
    assert Next(env, w2, es[2]) == read;
    assert Next(env, read, es[3]) == RememberedElsewhere(env);
    FourSteps(env, w, w1, w2, read, RememberedElsewhere(env), es);
  }

  /** Another file renamed over the path before a slow read, and later a directory moved so that
      the path names the first file again. No directory moves between a stat and its read. */
  lemma RenamedUnder(env: Env) returns (es: seq<Event>)
    requires env.stamps && env.granularity >= 1 && env.delay >= 0 && env.moves.OutsideWindows? && env.rebinds
    requires env.hash("a") != env.hash("b")
    ensures Legal(env, Start(env), es) && !AnswersHeld(After(env, Start(env), es))
  {
    var w2, w6 := Looked(env, Start(env), 0, "p"), RememberedElsewhere(env);
    StatThenLook(env, Start(env), 0, "p");
    assert {} + {env.hash("a")} == {env.hash("a")};
    assert w2.walks == map[0 := Missed("p", FirstInfo(env), Id(1, 1), {env.hash("a")})];
    var middle := [Rebind("p", Some(Id(2, 1)), 1 - env.granularity), Tick(RACY_WINDOW), Read(0), Event.Remember(0)];
    RenameThenRead(env, w2, middle);
    MoveBack(env);
    StatThenLook(env, MovedBack(env), 1, "p");
    assert Looked(env, MovedBack(env), 1, "p").walks[1] == Answered("p", {env.hash("a")}, env.hash("b"));
    es := [MoveDir("p", Some(Id(1, 1)))] + [Stat(1, "p"), Look(1)];
    Prefixed(env, w6, MoveDir("p", Some(Id(1, 1))), [Stat(1, "p"), Look(1)]);
    Chained(env, w2, middle, es);
    Chained(env, Start(env), [Stat(0, "p"), Look(0)], middle + es);
    es := [Stat(0, "p"), Look(0)] + (middle + es);
  }

  lemma MoveBack(env: Env)
    requires env.moves.OutsideWindows?
    ensures
      var w := RememberedElsewhere(env);
      && Enabled(env, w, MoveDir("p", Some(Id(1, 1)))) && Next(env, w, MoveDir("p", Some(Id(1, 1)))) == MovedBack(env)
  {
    var ha, hb := env.hash("a"), env.hash("b");
    assert {ha, hb} + {ha} == {ha, hb};
    assert RememberedElsewhere(env).names["p" := Id(1, 1)] == MovedBack(env).names;
    WatchOne(env, MovedBack(env), MovedBack(env).walks[0], Some(ha));
    hide Watch;
  }

  /** In every run every answer of the walk, remembered or read, is the hash of something the
      path held between the walk's stat and its answer, exactly when no change times exist or
      the racy window covers granularity and delay and either no directory ever moves, or what
      a path names stays as it is between a walk's stat of it and the read. */
  lemma MemoSound(env: Env)
    requires env.granularity >= 1 && env.delay >= 0
    requires env.hash("a") != env.hash("b")
    ensures Sound(env) <==>
      || !env.stamps
      || (&& env.granularity + env.delay <= 2_000_000_000
          && (env.moves.Never? || (env.moves.OutsideWindows? && !env.rebinds)))
  {
    hide Legal, After, Next, Enabled;
    if !env.stamps || Timely(env) {
      forall w: World, es: seq<Event> | Fresh(w) && Legal(env, w, es) ensures AnswersHeld(After(env, w, es)) {
        if env.stamps {
          RunKeeps(env, w, es);
          assert forall k :: k in After(env, w, es).walks ==> WalkFits(env, After(env, w, es), After(env, w, es).walks[k]);
        } else {
          UnstampedRun(env, w, es);
        }
      }
    } else {
      ghost var es;
      if env.moves.Anytime? {
        es := MovedAway(env);
      } else if env.moves.OutsideWindows? && env.rebinds {
        es := RenamedUnder(env);
      } else {
        es := SlowRemember(env);
      }
      assert Fresh(Start(env)) && Legal(env, Start(env), es) && !AnswersHeld(After(env, Start(env), es));
    }
  }
}
