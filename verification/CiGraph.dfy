/**
 The dependency graph of the CI planner: building the edge maps from resolver output, and the worklist
 closure that finds every package affected by a change.
 */
module CiGraph {

  type Id = nat

  /** `wellFormed` stands for the shape checks on a dependency's name and kinds. */
  datatype Dep = Dep(pkg: Id, wellFormed: bool)
  datatype Node = Node(id: Id, deps: seq<Dep>)
  datatype Metadata = Metadata(packages: set<Id>, members: set<Id>, nodes: seq<Node>)

  type Edges = map<Id, set<Id>>

  // ---------------------------------------------------------------------------------------------
  // Reachability
  // ---------------------------------------------------------------------------------------------

  ghost predicate IsPath(e: Edges, p: seq<Id>) {
    p != [] && forall i | 0 <= i < |p| - 1 :: p[i] in e && p[i + 1] in e[p[i]]
  }

  ghost predicate PathFromTo(e: Edges, p: seq<Id>, a: Id, b: Id) {
    IsPath(e, p) && p[0] == a && p[|p| - 1] == b
  }

  ghost predicate Reaches(e: Edges, a: Id, b: Id) {
    exists p :: PathFromTo(e, p, a, b)
  }

  ghost predicate ReachedFrom(e: Edges, seeds: set<Id>, x: Id) {
    exists s :: s in seeds && Reaches(e, s, x)
  }

  /** All edges stay inside the keys. */
  ghost predicate Closed(e: Edges) {
    forall x | x in e :: e[x] <= e.Keys
  }

  ghost predicate Transposed(f: Edges, r: Edges) {
    f.Keys == r.Keys && forall a, b | a in f && b in r :: b in f[a] <==> a in r[b]
  }

  lemma ReachesItself(e: Edges, a: Id)
    ensures Reaches(e, a, a)
  {
    assert PathFromTo(e, [a], a, a);
  }

  lemma ReachesNext(e: Edges, a: Id, b: Id, c: Id)
    requires Reaches(e, a, b) && b in e && c in e[b]
    ensures Reaches(e, a, c)
  {
    var p :| PathFromTo(e, p, a, b);
    assert PathFromTo(e, p + [c], a, c);
  }

  /** A set that contains the seeds and is closed under the edges contains everything reachable. */
  lemma {:induction false} ReachedStaysInside(e: Edges, s: set<Id>, p: seq<Id>, a: Id, b: Id)
    requires PathFromTo(e, p, a, b) && a in s
    requires forall x | x in s && x in e :: e[x] <= s
    ensures b in s
    decreases |p|
  {
    if |p| > 1 {
      assert p[1] in e[p[0]];
      assert PathFromTo(e, p[1..], p[1], b);
      ReachedStaysInside(e, s, p[1..], p[1], b);
    }
  }

  lemma ReversedPath(f: Edges, r: Edges, p: seq<Id>, a: Id, b: Id)
    requires Transposed(f, r) && Closed(f) && PathFromTo(f, p, a, b)
    ensures PathFromTo(r, seq(|p|, i requires 0 <= i < |p| => p[|p| - 1 - i]), b, a)
  {
    var q := seq(|p|, i requires 0 <= i < |p| => p[|p| - 1 - i]);
    forall i | 0 <= i < |q| - 1
      ensures q[i] in r && q[i + 1] in r[q[i]]
    {
      var j := |p| - 2 - i;
      assert p[j] in f && p[j + 1] in f[p[j]];
      assert f[p[j]] <= f.Keys;
    }
  }

  /** Backwards along one edge map is forwards along its transpose. */
  lemma ReachesReversed(f: Edges, r: Edges, a: Id, b: Id)
    requires Transposed(f, r) && Closed(f) && Closed(r)
    ensures Reaches(f, a, b) <==> Reaches(r, b, a)
  {
    if Reaches(f, a, b) {
      var p :| PathFromTo(f, p, a, b);
      ReversedPath(f, r, p, a, b);
    }
    if Reaches(r, b, a) {
      var p :| PathFromTo(r, p, b, a);
      ReversedPath(r, f, p, b, a);
    }
  }

  // ---------------------------------------------------------------------------------------------
  // Building the graph
  // ---------------------------------------------------------------------------------------------

  predicate DepOk(packages: set<Id>, d: Dep) {
    d.pkg in packages && d.wellFormed
  }

  predicate NodeOk(packages: set<Id>, n: Node) {
    n.id in packages && forall i | 0 <= i < |n.deps| :: DepOk(packages, n.deps[i])
  }

  /** The resolver output covers every package exactly once, with known packages only. */
  ghost predicate Complete(m: Metadata) {
    && m.members != {} && m.nodes != [] && m.members <= m.packages
    && (forall i | 0 <= i < |m.nodes| :: NodeOk(m.packages, m.nodes[i]))
    && (forall i, j | 0 <= i < j < |m.nodes| :: m.nodes[i].id != m.nodes[j].id)
    && (forall p | p in m.packages :: exists i :: 0 <= i < |m.nodes| && m.nodes[i].id == p)
  }

  function DepSet(deps: seq<Dep>): set<Id> {
    set i | 0 <= i < |deps| :: deps[i].pkg
  }

  ghost predicate GraphOk(packages: set<Id>, f: Edges, r: Edges) {
    f.Keys == packages && Closed(f) && Closed(r) && Transposed(f, r)
  }

  lemma EdgeAdded(packages: set<Id>, f: Edges, r: Edges, a: Id, b: Id)
    requires GraphOk(packages, f, r) && a in packages && b in packages
    ensures GraphOk(packages, f[a := f[a] + {b}], r[b := r[b] + {a}])
  {
  }

  /** The first `i` nodes are sound and distinct, `seen` are their ids, and `f` holds their dependencies and
      nothing else. */
  ghost predicate Loaded(m: Metadata, i: nat, seen: set<Id>, f: Edges)
    requires i <= |m.nodes|
  {
    && f.Keys == m.packages
    && (forall x | x in seen :: exists j :: 0 <= j < i && m.nodes[j].id == x)
    && (forall j | 0 <= j < i :: NodeOk(m.packages, m.nodes[j]) && m.nodes[j].id in seen)
    && (forall j, k | 0 <= j < k < i :: m.nodes[j].id != m.nodes[k].id)
    && (forall j | 0 <= j < i :: m.nodes[j].id in f && f[m.nodes[j].id] == DepSet(m.nodes[j].deps))
    && (forall p | p in m.packages - seen :: f[p] == {})
  }

  function NoEdges(packages: set<Id>): Edges {
    map p | p in packages :: {}
  }

  lemma BadNode(m: Metadata, i: nat)
    requires i < |m.nodes| && !NodeOk(m.packages, m.nodes[i])
    ensures !Complete(m)
  {
  }

  lemma LoadedOneMore(m: Metadata, i: nat, seen: set<Id>, f: Edges)
    requires i < |m.nodes| && Loaded(m, i, seen, f) && m.nodes[i].id !in seen
    ensures NodeOk(m.packages, m.nodes[i]) ==>
      Loaded(m, i + 1, seen + {m.nodes[i].id}, f[m.nodes[i].id := DepSet(m.nodes[i].deps)])
  {
  }

  lemma LoadedAll(m: Metadata, seen: set<Id>, f: Edges)
    requires Loaded(m, |m.nodes|, seen, f)
    requires m.members != {} && m.nodes != [] && m.members <= m.packages
    ensures Complete(m) <==> seen == m.packages
  {
    if Complete(m) {
      forall p | p in m.packages ensures p in seen {
        var i :| 0 <= i < |m.nodes| && m.nodes[i].id == p;
      }
    }
  }

  lemma SeenTwice(m: Metadata, i: nat, seen: set<Id>, f: Edges)
    requires i < |m.nodes| && Loaded(m, i, seen, f) && m.nodes[i].id in seen
    ensures !Complete(m)
  {
    var j :| 0 <= j < i && m.nodes[j].id == m.nodes[i].id;
  }

  /** Everything reached so far, and `todo` covers whatever still has unvisited edges. */
  ghost predicate Worklist(e: Edges, seeds: set<Id>, selected: set<Id>, todo: seq<Id>) {
    && seeds <= selected <= e.Keys
    && (forall i | 0 <= i < |todo| :: todo[i] in selected)
    && (forall x | x in selected && x !in todo :: e[x] <= selected)
    && (forall x | x in selected :: ReachedFrom(e, seeds, x))
  }

  lemma FrontAndLast(todo: seq<Id>, x: Id)
    requires todo != [] && x in todo
    ensures x in todo[..|todo| - 1] || x == todo[|todo| - 1]
  {
  }

  lemma WorklistStep(e: Edges, seeds: set<Id>, selected: set<Id>, todo: seq<Id>, selected': set<Id>, todo': seq<Id>)
    requires Closed(e) && Worklist(e, seeds, selected, todo) && todo != []
    requires todo[|todo| - 1] in e && selected' == selected + e[todo[|todo| - 1]]
    requires forall x :: x in todo' <==> x in todo[..|todo| - 1] || x in e[todo[|todo| - 1]] - selected
    ensures Worklist(e, seeds, selected', todo')
  {
    var item := todo[|todo| - 1];
    assert item in selected;
    ReachedThrough(e, seeds, item);
    forall x | x in selected' && x !in todo'
      ensures e[x] <= selected'
    {
      if x in todo { FrontAndLast(todo, x); }
    }
    forall i | 0 <= i < |todo'|
      ensures todo'[i] in selected'
    {
      assert todo'[i] in todo';
      if todo'[i] in todo[..|todo| - 1] { assert todo'[i] in todo; }
    }
  }

  lemma WorklistDone(e: Edges, seeds: set<Id>, selected: set<Id>)
    requires Worklist(e, seeds, selected, [])
    ensures forall x :: x in selected <==> ReachedFrom(e, seeds, x)
  {
    forall x | ReachedFrom(e, seeds, x)
      ensures x in selected
    {
      var s :| s in seeds && Reaches(e, s, x);
      var p :| PathFromTo(e, p, s, x);
      ReachedStaysInside(e, selected, p, s, x);
    }
  }

  lemma WorklistStart(e: Edges, seeds: set<Id>, todo: seq<Id>)
    requires seeds <= e.Keys && forall x :: x in todo <==> x in seeds
    ensures Worklist(e, seeds, seeds, todo)
  {
    forall s | s in seeds ensures ReachedFrom(e, seeds, s) { ReachesItself(e, s); }
  }

  class Graph {
    var packages: set<Id>
    var members: set<Id>
    var forward: Edges
    var reverse: Edges

    ghost predicate Valid()
      reads this
    {
      members <= packages && GraphOk(packages, forward, reverse)
    }

    constructor ()
    {
      packages, members, forward, reverse := {}, {}, map[], map[];
    }

    /** `Graph.__init__`: succeeds exactly on complete metadata, and then the forward edges are the direct
        dependencies and the reverse edges their transpose. */
    method Build(m: Metadata) returns (ok: bool)
      modifies this
      ensures ok <==> Complete(m)
      ensures ok ==> Valid() && packages == m.packages && members == m.members
      ensures ok ==> forall i | 0 <= i < |m.nodes| :: forward[m.nodes[i].id] == DepSet(m.nodes[i].deps)
    {
      packages, members := m.packages, m.members;
      forward := NoEdges(m.packages);
      reverse := NoEdges(m.packages);
      if m.members == {} || m.nodes == [] || !(m.members <= m.packages) {
        return false;
      }
      var seen: set<Id> := {};
      for i := 0 to |m.nodes|
        invariant packages == m.packages && members == m.members && Valid()
        invariant Loaded(m, i, seen, forward)
      {
        var good;
        good, seen := LoadNode(m, i, seen);
        if !good {
          return false;
        }
      }
      LoadedAll(m, seen, forward);
      ok := seen == packages;
    }

    /** One resolver node: known, not seen before, and with known dependencies. */
    method LoadNode(m: Metadata, i: nat, seen: set<Id>) returns (good: bool, seen': set<Id>)
      requires i < |m.nodes| && packages == m.packages && Valid() && Loaded(m, i, seen, forward)
      modifies this`forward, this`reverse
      ensures good ==> Valid() && Loaded(m, i + 1, seen', forward)
      ensures !good ==> !Complete(m)
    {
      var node := m.nodes[i];
      seen' := seen;
      if node.id !in packages {
        BadNode(m, i);
        return false, seen;
      }
      if node.id in seen {
        SeenTwice(m, i, seen, forward);
        return false, seen;
      }
      LoadedOneMore(m, i, seen, forward);
      good := AddNode(node);
      if !good {
        BadNode(m, i);
      }
      seen' := seen + {node.id};
    }

    method AddEdge(a: Id, b: Id)
      requires Valid() && a in packages && b in packages
      modifies this`forward, this`reverse
      ensures Valid() && forward[a] == old(forward)[a] + {b} && forward - {a} == old(forward) - {a}
    {
      EdgeAdded(packages, forward, reverse, a, b);
      reverse := reverse[b := reverse[b] + {a}];
      forward := forward[a := forward[a] + {b}];
    }

    /** The inner loop over one node's dependencies. */
    method AddNode(node: Node) returns (good: bool)
      requires Valid() && node.id in packages && forward[node.id] == {}
      modifies this`forward, this`reverse
      ensures good <==> NodeOk(packages, node)
      ensures good ==> Valid() && forward == old(forward)[node.id := DepSet(node.deps)]
    {
      assert DepSet(node.deps[..0]) == {};
      for j := 0 to |node.deps|
        invariant Valid() && forward[node.id] == DepSet(node.deps[..j])
        invariant forward - {node.id} == old(forward) - {node.id}
        invariant forall i | 0 <= i < j :: DepOk(packages, node.deps[i])
      {
        var dep := node.deps[j];
        if !DepOk(packages, dep) {
          return false;
        }
        DepSetStep(node.deps, j);
        AddEdge(node.id, dep.pkg);
      }
      assert node.deps[..|node.deps|] == node.deps;
      SameElsewhere(forward, old(forward), node.id);
      good := true;
    }

    /** Pops one package and pushes its unvisited neighbours. */
    static method Visit(ghost seeds: set<Id>, edges: Edges, selected: set<Id>, todo: seq<Id>)
      returns (selected': set<Id>, todo': seq<Id>)
      requires Closed(edges) && Worklist(edges, seeds, selected, todo) && todo != []
      ensures Worklist(edges, seeds, selected', todo')
      ensures || (selected' == selected && |todo'| < |todo|)
              || |edges.Keys - selected'| < |edges.Keys - selected|
    {
      var item := todo[|todo| - 1];
      assert item in selected;
      selected', todo' := AddAll(edges[item] - selected, selected, todo[..|todo| - 1]);
      SomeLeftOrFewer(edges.Keys, edges[item], selected, selected');
      WorklistStep(edges, seeds, selected, todo, selected', todo');
    }

    /** The worklist closure over one of the edge maps: exactly what the seeds reach. */
    static method Closure(seeds: set<Id>, edges: Edges) returns (selected: set<Id>)
      requires Closed(edges) && seeds <= edges.Keys
      ensures forall x :: x in selected <==> ReachedFrom(edges, seeds, x)
    {
      selected := seeds;
      var todo := SetToSeq(seeds);
      WorklistStart(edges, seeds, todo);
      while todo != []
        invariant Worklist(edges, seeds, selected, todo)
        decreases |edges.Keys - selected|, |todo|
      {
        selected, todo := Visit(seeds, edges, selected, todo);
      }
      WorklistDone(edges, seeds, selected);
    }

    /** The members affected by a change to the seeds: exactly those that are, or depend directly or
        indirectly on, a seed. */
    method Affected(seeds: set<Id>) returns (affected: set<Id>)
      requires Valid() && seeds <= packages
      ensures forall m :: m in affected <==> m in members && exists s :: s in seeds && Reaches(forward, m, s)
    {
      var selected := Closure(seeds, reverse);
      affected := selected * members;
      forall m
        ensures ReachedFrom(reverse, seeds, m) <==> exists s :: s in seeds && Reaches(forward, m, s)
      {
        forall s
          ensures Reaches(forward, m, s) <==> Reaches(reverse, s, m)
        {
          ReachesReversed(forward, reverse, m, s);
        }
      }
    }
  }

  lemma ReachedThrough(e: Edges, seeds: set<Id>, item: Id)
    requires ReachedFrom(e, seeds, item) && item in e
    ensures forall x | x in e[item] :: ReachedFrom(e, seeds, x)
  {
    var s :| s in seeds && Reaches(e, s, item);
    forall x | x in e[item] ensures ReachedFrom(e, seeds, x) { ReachesNext(e, s, item, x); }
  }

  lemma SameElsewhere(f: Edges, g: Edges, a: Id)
    requires f.Keys == g.Keys && a in f && f - {a} == g - {a}
    ensures f == g[a := f[a]]
  {
    forall p | p in f && p != a
      ensures f[p] == g[p]
    {
      assert p in f - {a} && (f - {a})[p] == f[p] && (g - {a})[p] == g[p];
    }
  }

  lemma DepSetStep(deps: seq<Dep>, j: nat)
    requires j < |deps|
    ensures DepSet(deps[..j + 1]) == DepSet(deps[..j]) + {deps[j].pkg}
  {
    var d := deps[..j + 1];
    assert d[j].pkg in DepSet(d);
    forall x | x in DepSet(deps[..j])
      ensures x in DepSet(d)
    {
      var i :| 0 <= i < j && deps[..j][i].pkg == x;
      assert d[i].pkg == x;
    }
  }

  lemma Shrinks(all: set<Id>, a: set<Id>, b: set<Id>)
    requires a < b <= all
    ensures |all - b| < |all - a|
  {
    assert all - a == (all - b) + (b - a);
    assert b - a != {};
  }

  /** Adding what is not there yet adds nothing or leaves fewer outside. */
  lemma SomeLeftOrFewer(all: set<Id>, items: set<Id>, selected: set<Id>, selected': set<Id>)
    requires selected <= all && items <= all && selected' == selected + (items - selected)
    ensures selected' == selected + items
    ensures if items - selected == {} then selected' == selected else |all - selected'| < |all - selected|
  {
    if items - selected != {} {
      var x :| x in items - selected;
      assert x in selected';
      Shrinks(all, selected, selected');
    }
  }

  /** A set as a list, in no particular order. */
  method SetToSeq(s: set<Id>) returns (r: seq<Id>)
    ensures forall x :: x in r <==> x in s
  {
    r := [];
    var rest := s;
    while rest != {}
      invariant rest <= s && forall x :: x in r <==> x in s - rest
      decreases |rest|
    {
      var x :| x in rest;
      r := r + [x];
      rest := rest - {x};
    }
  }

  method AddAll(items: set<Id>, selected: set<Id>, todo: seq<Id>) returns (selected': set<Id>, todo': seq<Id>)
    ensures selected' == selected + items
    ensures forall x :: x in todo' <==> x in todo || x in items
    ensures items == {} ==> todo' == todo
  {
    selected', todo' := selected, todo;
    var rest := items;
    while rest != {}
      invariant rest <= items && selected' == selected + (items - rest)
      invariant forall x :: x in todo' <==> x in todo || x in items - rest
      invariant items == {} ==> todo' == todo
      decreases |rest|
    {
      var x :| x in rest;
      selected' := selected' + {x};
      todo' := todo' + [x];
      rest := rest - {x};
    }
  }
}
