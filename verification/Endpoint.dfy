/** The model walk of an endpoint's impact (hop 3 of Analyze in internal/endpoint/endpoint.go):
    from the methods that serve a route, a few edges out, to the models they touch. */
module Endpoint {
  import opened Wrappers

  const MODEL_SEARCH_DEPTH: nat := 3

  /** `models`: the classes with a storage fact. `nonMethods`: the symbols that are no method. */
  datatype Graph = Graph(edges: map<string, seq<string>>, models: set<string>, nonMethods: set<string>)

  function ForwardEdges(g: Graph, node: string): seq<string> {
    if node in g.edges then g.edges[node] else []
  }

  /** The text before the first `c`. */
  function Cut(s: string, c: char): (r: Option<string>)
    ensures r.Some? <==> c in s
  {
    if s == "" then None
    else if s[0] == c then Some("")
    else
      var r := Cut(s[1..], c);
      if r.None? then None else Some([s[0]] + r.value)
  }

  lemma {:induction false} CutFirst(a: string, c: char, b: string)
    requires c !in a
    ensures Cut(a + [c] + b, c) == Some(a)
  {
    var s := a + [c] + b;
    if a == "" {
      assert s[0] == c;
    } else {
      CutFirst(a[1..], c, b);
      assert s[0] == a[0] && s[1..] == a[1..] + [c] + b && a == [a[0]] + a[1..];
    }
  }

  predicate ScopeAt(s: string, i: nat) {
    i + 2 <= |s| && s[i] == ':' && s[i + 1] == ':'
  }

  /** Where the last `::` starts. */
  function LastScope(s: string): (i: Option<nat>)
    ensures i.Some? ==> ScopeAt(s, i.value)
  {
    if |s| < 2 then None
    else if ScopeAt(s, |s| - 2) then Some(|s| - 2)
    else LastScope(s[..|s| - 1])
  }

  lemma {:induction false} LastScopeIs(s: string, i: nat)
    requires ScopeAt(s, i) && forall j: nat :: ScopeAt(s, j) ==> j <= i
    ensures LastScope(s) == Some(i)
    decreases |s|
  {
    if !ScopeAt(s, |s| - 2) {
      var init := s[..|s| - 1];
      assert forall j: nat :: ScopeAt(init, j) ==> ScopeAt(s, j);
      LastScopeIs(init, i);
    }
  }

  /** The class of a `Class#method` or `Class::method` name, empty when it is neither. */
  function OwnerOf(name: string): string {
    var hash := Cut(name, '#');
    if hash.Some? then hash.value
    else
      var scope := LastScope(name);
      if scope.Some? && scope.value > 0 then name[..scope.value] else ""
  }

  lemma OwnerOfHashed(owner: string, member: string)
    requires '#' !in owner
    ensures OwnerOf(owner + ['#'] + member) == owner
  {
    CutFirst(owner, '#', member);
  }

  lemma OwnerOfScoped(owner: string, member: string)
    requires '#' !in owner && '#' !in member && ':' !in member && owner != ""
    ensures OwnerOf(owner + "::" + member) == owner
  {
    var name := owner + "::" + member;
    assert forall k :: |owner| + 2 <= k < |name| ==> name[k] == member[k - |owner| - 2];
    assert forall j: nat :: ScopeAt(name, j) ==> j <= |owner|;
    assert ScopeAt(name, |owner|);
    LastScopeIs(name, |owner|);
    assert name[..|owner|] == owner;
  }

  lemma {:induction false} CutEmpty(s: string, c: char)
    ensures Cut(s, c) == Some("") <==> s != "" && s[0] == c
  {
    if s != "" {
      CutEmpty(s[1..], c);
      assert s == [s[0]] + s[1..];
    }
  }

  lemma {:induction false} LastScopeFound(s: string)
    ensures LastScope(s).None? <==> forall j: nat :: !ScopeAt(s, j)
    ensures LastScope(s).Some? ==> forall j: nat :: ScopeAt(s, j) ==> j <= LastScope(s).value
    decreases |s|
  {
    if |s| >= 2 && !ScopeAt(s, |s| - 2) {
      var init := s[..|s| - 1];
      LastScopeFound(init);
      assert forall j: nat :: ScopeAt(init, j) <==> ScopeAt(s, j);
    } else if |s| >= 2 {
      assert ScopeAt(s, |s| - 2);
    }
  }

  /** Exactly the names with nothing before their `#`, and without one nothing before any `::`,
      have no owner. */
  lemma OwnerOfNeither(name: string)
    ensures OwnerOf(name) == "" <==>
      if '#' in name then name[0] == '#' else forall j: nat :: ScopeAt(name, j) ==> j == 0
  {
    CutEmpty(name, '#');
    LastScopeFound(name);
    hide Cut, LastScope;
  }

  /** The model an edge to `target` reaches: the target itself, or the model it is a member of. */
  function ModelOf(g: Graph, target: string): Option<string> {
    if target in g.models then Some(target)
    else if target !in g.nonMethods && OwnerOf(target) in g.models then Some(OwnerOf(target))
    else None
  }

  // ---- What the walk means ----

  /** The target is the model, or a member of it and no symbol of another kind. */
  predicate Shows(g: Graph, target: string, m: string) {
    m in g.models && (target == m || (target !in g.models && target !in g.nonMethods && OwnerOf(target) == m))
  }

  lemma ModelIsShown(g: Graph, target: string)
    ensures forall m :: ModelOf(g, target) == Some(m) <==> Shows(g, target, m)
    ensures ModelOf(g, target).None? <==> forall m :: !Shows(g, target, m)
  {
    hide OwnerOf;
    if ModelOf(g, target).Some? {
      assert Shows(g, target, ModelOf(g, target).value);
    }
  }

  /** A path of edges from a start, through nodes that reach no model. */
  ghost predicate IsChain(g: Graph, starts: seq<string>, path: seq<string>) {
    && |path| >= 2 && path[0] in starts
    && (forall i :: 0 <= i < |path| - 1 ==> path[i + 1] in ForwardEdges(g, path[i]))
    && (forall i :: 1 <= i < |path| - 1 ==> ModelOf(g, path[i]).None?)
  }

  ghost predicate ChainTo(g: Graph, starts: seq<string>, path: seq<string>, k: nat, target: string) {
    IsChain(g, starts, path) && |path| <= k + 1 && path[|path| - 1] == target
  }

  ghost predicate Touches(g: Graph, starts: seq<string>, m: string) {
    exists path :: IsChain(g, starts, path) && 2 <= |path| <= MODEL_SEARCH_DEPTH + 1 && ModelOf(g, path[|path| - 1]) == Some(m)
  }

  // ---- By levels ----

  function Targets(g: Graph, nodes: seq<string>): set<string> {
    set i, t | 0 <= i < |nodes| && t in ForwardEdges(g, nodes[i]) :: t
  }

  function TargetsOf(g: Graph, nodes: set<string>): set<string> {
    set n, t | n in nodes && t in ForwardEdges(g, n) :: t
  }

  function Blank(g: Graph, nodes: set<string>): set<string> {
    set n | n in nodes && ModelOf(g, n).None?
  }

  /** The ends of the chains of at most `k` edges. */
  function Near(g: Graph, starts: seq<string>, k: nat): set<string> {
    if k == 0 then {} else TargetsOf(g, (set s | s in starts) + Blank(g, Near(g, starts, k - 1)))
  }

  lemma {:induction false} NearGrows(g: Graph, starts: seq<string>, k: nat)
    ensures Near(g, starts, k) <= Near(g, starts, k + 1)
  {
    hide ModelOf, ForwardEdges;
    if k > 0 {
      NearGrows(g, starts, k - 1);
    }
  }

  lemma {:induction false} ChainIsNear(g: Graph, starts: seq<string>, path: seq<string>, k: nat, target: string)
    requires ChainTo(g, starts, path, k, target)
    ensures target in Near(g, starts, k)
    decreases k
  {
    hide ModelOf;
    var n := |path| - 2;
    if n > 0 {
      var front := path[..n + 1];
      ChainIsNear(g, starts, front, k - 1, path[n]);
      assert ModelOf(g, path[n]).None?;
    }
    assert path[n + 1] in ForwardEdges(g, path[n]);
  }

  lemma {:induction false} NearHasChain(g: Graph, starts: seq<string>, k: nat, target: string) returns (path: seq<string>)
    requires target in Near(g, starts, k)
    ensures ChainTo(g, starts, path, k, target)
    decreases k
  {
    hide ModelOf, ForwardEdges;
    var n :| (n in starts || n in Blank(g, Near(g, starts, k - 1))) && target in ForwardEdges(g, n);
    if n in starts {
      path := [n, target];
    } else {
      var front := NearHasChain(g, starts, k - 1, n);
      path := front + [target];
      forall i | 0 <= i < |path| - 1 ensures path[i + 1] in ForwardEdges(g, path[i]) {
        if i < |front| - 1 {
          assert path[i] == front[i] && path[i + 1] == front[i + 1];
        }
      }
      forall i | 1 <= i < |path| - 1 ensures ModelOf(g, path[i]).None? {
        if i < |front| - 1 {
          assert path[i] == front[i];
        }
      }
    }
  }

  // ---- The walk ----

  ghost function Found(g: Graph, seen: set<string>): set<string> {
    set t | t in seen && ModelOf(g, t).Some? :: ModelOf(g, t).value
  }

  /** One edge: a target seen before is passed over, one that reaches a model ends there. */
  method Follow(g: Graph, target: string, seen: set<string>, reached: set<string>, next: seq<string>)
    returns (seen': set<string>, reached': set<string>, next': seq<string>)
    requires reached == Found(g, seen)
    ensures seen' == seen + {target} && reached' == Found(g, seen')
    ensures next' == if target !in seen && ModelOf(g, target).None? then next + [target] else next
  {
    seen', reached', next' := seen, reached, next;
    if target in seen {
      assert seen + {target} == seen;
      return;
    }
    seen' := seen + {target};
    FoundNext(g, seen, target);
    if target in g.models {
      reached' := reached + {target};
      return;
    }
    if target !in g.nonMethods {
      var owner := OwnerOf(target);
      if owner in g.models {
        reached' := reached + {owner};
        return;
      }
    }
    next' := next + [target];
  }

  lemma FoundNext(g: Graph, seen: set<string>, t: string)
    ensures Found(g, seen + {t}) == Found(g, seen) + if ModelOf(g, t).Some? then {ModelOf(g, t).value} else {}
  {
    hide ModelOf;
  }

  /** Every node so far expanded or waiting: the state between two levels. */
  ghost predicate Between(g: Graph, starts: seq<string>, k: nat, seen: set<string>, frontier: seq<string>) {
    && seen == Near(g, starts, k)
    && (forall n :: n in frontier ==> n in starts || n in Blank(g, seen))
    && (forall n :: n in starts || n in Blank(g, seen) ==> n in frontier || forall t :: t in ForwardEdges(g, n) ==> t in seen)
  }

  /** The whole frontier: what was new and blank is the next one. */
  method Expand(g: Graph, frontier: seq<string>, seen0: set<string>, reached0: set<string>)
    returns (seen: set<string>, reached: set<string>, next: seq<string>)
    requires reached0 == Found(g, seen0)
    ensures seen == seen0 + Targets(g, frontier) && reached == Found(g, seen)
    ensures forall t :: t in next <==> t in Blank(g, seen) && t !in seen0
  {
    hide ModelOf, Found, ForwardEdges;
    seen, reached, next := seen0, reached0, [];
    for i := 0 to |frontier|
      invariant seen == seen0 + Targets(g, frontier[..i]) && reached == Found(g, seen)
      invariant forall t :: t in next <==> t in Blank(g, seen) && t !in seen0
    {
      var out := ForwardEdges(g, frontier[i]);
      ghost var before := seen;
      for j := 0 to |out|
        invariant seen == before + (set t | t in out[..j]) && reached == Found(g, seen)
        invariant forall t :: t in next <==> t in Blank(g, seen) && t !in seen0
      {
        seen, reached, next := Follow(g, out[j], seen, reached, next);
        assert out[..j + 1] == out[..j] + [out[j]];
      }
      assert out[..|out|] == out;
      TargetsSnoc(g, frontier, i);
    }
    assert frontier[..|frontier|] == frontier;
  }

  lemma TargetsSnoc(g: Graph, nodes: seq<string>, i: nat)
    requires i < |nodes|
    ensures Targets(g, nodes[..i + 1]) == Targets(g, nodes[..i]) + set t | t in ForwardEdges(g, nodes[i])
  {
    hide ForwardEdges;
    assert nodes[..i + 1] == nodes[..i] + [nodes[i]];
    forall t | t in ForwardEdges(g, nodes[i]) ensures t in Targets(g, nodes[..i + 1]) {
      assert nodes[..i + 1][i] == nodes[i];
    }
    forall t | t in Targets(g, nodes[..i]) ensures t in Targets(g, nodes[..i + 1]) {
      var m :| 0 <= m < i && t in ForwardEdges(g, nodes[..i][m]);
      assert nodes[..i + 1][m] == nodes[..i][m];
    }
  }

  lemma LevelDone(g: Graph, starts: seq<string>, k: nat, seen: set<string>, frontier: seq<string>, seen': set<string>, next: seq<string>)
    requires Between(g, starts, k, seen, frontier)
    requires seen' == seen + Targets(g, frontier)
    requires forall t :: t in next <==> t in Blank(g, seen') && t !in seen
    ensures Between(g, starts, k + 1, seen', next)
  {
    hide ModelOf, ForwardEdges;
    NearGrows(g, starts, k);
    var all := (set s | s in starts) + Blank(g, seen);
    forall t ensures t in seen' <==> t in TargetsOf(g, all) {
      if t in TargetsOf(g, all) {
        var n :| n in all && t in ForwardEdges(g, n);
        if n in frontier {
          var i :| 0 <= i < |frontier| && frontier[i] == n;
          assert t in Targets(g, frontier);
        }
      }
      if t in Targets(g, frontier) {
        var i :| 0 <= i < |frontier| && t in ForwardEdges(g, frontier[i]);
        assert frontier[i] in frontier;
      }
    }
    forall n, t | (n in starts || n in Blank(g, seen')) && n !in next && t in ForwardEdges(g, n) ensures t in seen' {
      assert n in all;
    }
  }

  /** When the frontier is empty, no more levels add anything. */
  lemma {:induction false} NothingMore(g: Graph, starts: seq<string>, k: nat, seen: set<string>, m: nat)
    requires Between(g, starts, k, seen, []) && k <= m
    ensures Near(g, starts, m) == seen
    decreases m
  {
    hide ModelOf, ForwardEdges;
    if k < m {
      NothingMore(g, starts, k, seen, m - 1);
      NearGrows(g, starts, m - 1);
    }
  }

  predicate HasEdge(g: Graph, a: string, b: string) {
    a in g.edges && b in g.edges[a]
  }

  /** One to three edges lead from a start, through nodes that show no model, to one that shows `m`. */
  ghost predicate IsRoute(g: Graph, starts: seq<string>, path: seq<string>, m: string) {
    && 2 <= |path| <= 4 && path[0] in starts
    && (forall i :: 0 <= i < |path| - 1 ==> HasEdge(g, path[i], path[i + 1]))
    && (forall i, n :: 1 <= i < |path| - 1 ==> !Shows(g, path[i], n))
    && Shows(g, path[|path| - 1], m)
  }

  lemma TouchesByRoute(g: Graph, starts: seq<string>, m: string)
    ensures Touches(g, starts, m) <==> exists path :: IsRoute(g, starts, path, m)
  {
    forall path ensures IsRoute(g, starts, path, m) <==>
      IsChain(g, starts, path) && 2 <= |path| <= MODEL_SEARCH_DEPTH + 1 && ModelOf(g, path[|path| - 1]) == Some(m)
    {
      RouteIsChain(g, starts, path, m);
    }
    hide IsRoute, IsChain, ModelOf;
  }

  lemma RouteIsChain(g: Graph, starts: seq<string>, path: seq<string>, m: string)
    ensures IsRoute(g, starts, path, m) <==>
      IsChain(g, starts, path) && 2 <= |path| <= MODEL_SEARCH_DEPTH + 1 && ModelOf(g, path[|path| - 1]) == Some(m)
  {
    hide ModelOf, Shows, ForwardEdges, HasEdge;
    if |path| >= 2 {
      ModelIsShown(g, path[|path| - 1]);
      EdgesInside(g, path);
      if IsRoute(g, starts, path, m) {
        RouteInside(g, path);
      }
      if IsChain(g, starts, path) {
        ChainInside(g, path);
      }
    }
  }

  lemma EdgesInside(g: Graph, path: seq<string>)
    ensures (forall i :: 0 <= i < |path| - 1 ==> path[i + 1] in ForwardEdges(g, path[i]))
       <==> (forall i :: 0 <= i < |path| - 1 ==> HasEdge(g, path[i], path[i + 1]))
  {
    hide HasEdge, ForwardEdges;
    if forall i :: 0 <= i < |path| - 1 ==> path[i + 1] in ForwardEdges(g, path[i]) {
      forall i | 0 <= i < |path| - 1 ensures HasEdge(g, path[i], path[i + 1]) {
        assert path[i + 1] in ForwardEdges(g, path[i]);
        EdgeFrom(g, path[i], path[i + 1]);
      }
    }
    if forall i :: 0 <= i < |path| - 1 ==> HasEdge(g, path[i], path[i + 1]) {
      forall i | 0 <= i < |path| - 1 ensures path[i + 1] in ForwardEdges(g, path[i]) {
        assert HasEdge(g, path[i], path[i + 1]);
        EdgeFrom(g, path[i], path[i + 1]);
      }
    }
  }

  lemma RouteInside(g: Graph, path: seq<string>)
    requires forall i, n :: 1 <= i < |path| - 1 ==> !Shows(g, path[i], n)
    ensures forall i :: 1 <= i < |path| - 1 ==> ModelOf(g, path[i]).None?
  {
    hide ModelOf, Shows;
    forall i | 1 <= i < |path| - 1 ensures ModelOf(g, path[i]).None? {
      ModelIsShown(g, path[i]);
      assert forall n :: !Shows(g, path[i], n);
    }
  }

  lemma ChainInside(g: Graph, path: seq<string>)
    requires forall i :: 1 <= i < |path| - 1 ==> ModelOf(g, path[i]).None?
    ensures forall i, n :: 1 <= i < |path| - 1 ==> !Shows(g, path[i], n)
  {
    hide ModelOf, Shows;
    forall i, n | 1 <= i < |path| - 1 ensures !Shows(g, path[i], n) {
      ModelIsShown(g, path[i]);
    }
  }

  lemma EdgeFrom(g: Graph, node: string, target: string)
    ensures target in ForwardEdges(g, node) <==> HasEdge(g, node, target)
  {
  }

  method WalkModels(g: Graph, starts: seq<string>) returns (reached: set<string>)
    ensures forall m :: m in reached <==> exists path :: IsRoute(g, starts, path, m)
  {
    hide IsRoute, ModelOf, ForwardEdges, Found, Near, Touches;
    var seen: set<string> := {};
    reached := {};
    var frontier := starts;
    var depth := 0;
    StartBetween(g, starts);
    while depth < MODEL_SEARCH_DEPTH && |frontier| > 0
      invariant depth <= MODEL_SEARCH_DEPTH
      invariant Between(g, starts, depth, seen, frontier) && reached == Found(g, seen)
    {
      ghost var before, at := seen, frontier;
      var next;
      seen, reached, next := Expand(g, frontier, seen, reached);
      LevelDone(g, starts, depth, before, at, seen, next);
      frontier := next;
      depth := depth + 1;
    }
    if depth < MODEL_SEARCH_DEPTH {
      assert frontier == [];
      NothingMore(g, starts, depth, seen, MODEL_SEARCH_DEPTH);
    }
    forall m ensures m in reached <==> exists path :: IsRoute(g, starts, path, m) {
      TouchesByRoute(g, starts, m);
      FoundTouches(g, starts, m);
    }
  }

  lemma StartBetween(g: Graph, starts: seq<string>)
    ensures Between(g, starts, 0, {}, starts) && Found(g, {}) == {}
  {
    hide ModelOf;
  }

  /** The levels find what the chains touch. */
  lemma FoundTouches(g: Graph, starts: seq<string>, m: string)
    ensures m in Found(g, Near(g, starts, MODEL_SEARCH_DEPTH)) <==> Touches(g, starts, m)
  {
    hide ModelOf, ForwardEdges, Near, IsChain;
    if m in Found(g, Near(g, starts, MODEL_SEARCH_DEPTH)) {
      var t :| t in Near(g, starts, MODEL_SEARCH_DEPTH) && ModelOf(g, t) == Some(m);
      var path := NearHasChain(g, starts, MODEL_SEARCH_DEPTH, t);
      ChainLong(g, starts, path);
    }
    if Touches(g, starts, m) {
      var path: seq<string> :| IsChain(g, starts, path) && 2 <= |path| <= MODEL_SEARCH_DEPTH + 1 && ModelOf(g, path[|path| - 1]) == Some(m);
      ChainIsNear(g, starts, path, MODEL_SEARCH_DEPTH, path[|path| - 1]);
    }
  }

  lemma ChainLong(g: Graph, starts: seq<string>, path: seq<string>)
    requires IsChain(g, starts, path)
    ensures |path| >= 2
  {
  }
}
