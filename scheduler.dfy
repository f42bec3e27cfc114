/**
 * The scheduler: which nodes of a manifest are dry run, the dependencies
 * each one waits for (looking through nodes that are not run, such as
 * ephemeral models), and the generations in which they run, each after all
 * of its dependencies.
 *
 * The model assumes what a dbt manifest guarantees: every node is keyed by
 * its unique id and the `depends_on` graph is acyclic. The ghost `rank` is
 * the witness of acyclicity: a node's dependencies in the manifest have a
 * smaller rank.
 */
module Scheduler {
  import opened Wrappers
  import opened Exceptions
  import opened Seqs
  import opened Strings
  import opened Manifest

  /** `RUNNABLE_RESOURCE_TYPE`. */
  const RunnableResourceTypes: set<string> := {"model", "seed"}
  /** `RUNNABLE_MATERIAL`. */
  const RunnableMaterials: set<string> := {"view", "table", "incremental", "seed"}

  /** `_node_is_runnable`: a model or seed materialized as a view, table, incremental or seed. */
  predicate Runnable(node: Node)
  {
    node.config.materialized.Some? && node.config.materialized.value in RunnableMaterials
    && node.resourceType in RunnableResourceTypes
  }

  /** The keys of the runnable nodes. */
  function RunnableIds(nodes: map<string, Node>): (ids: set<string>)
    ensures forall k :: k in ids <==> k in nodes && Runnable(nodes[k])
  {
    set k | k in nodes && Runnable(nodes[k])
  }

  /** Every node is keyed by its unique id, and a dependency in the manifest has a smaller rank. */
  ghost predicate Ranked(g: map<string, Node>, rank: map<string, nat>)
  {
    (forall k :: k in g ==> k in rank && g[k].uniqueId == k) &&
    (forall k, d :: k in g && d in g[k].dependsOn.nodes && d in g ==> rank[d] < rank[k])
  }

  // ---------------------------------------------------------------------------
  // The graph a scheduler works on: the manifest without the deep dependencies
  // it writes back into its nodes.

  function WithoutDeep(n: Node): Node
  {
    n.(dependsOn := n.dependsOn.(deepNodes := None))
  }

  function WithDeepNodes(n: Node, deps: seq<string>): (r: Node)
    ensures r.dependsOn.deepNodes == Some(deps) && WithoutDeep(r) == WithoutDeep(n)
  {
    n.(dependsOn := n.dependsOn.(deepNodes := Some(deps)))
  }

  /** `nodes` is the graph `g` up to the deep dependencies written into it. */
  ghost predicate SameGraph(nodes: map<string, Node>, g: map<string, Node>)
  {
    nodes.Keys == g.Keys && forall k :: k in nodes ==> WithoutDeep(nodes[k]) == g[k]
  }

  /** The graph of a manifest: its nodes without deep dependencies. */
  ghost function Skeleton(nodes: map<string, Node>): (g: map<string, Node>)
    ensures SameGraph(nodes, g)
  {
    map k | k in nodes :: WithoutDeep(nodes[k])
  }

  lemma RankedSkeleton(nodes: map<string, Node>, rank: map<string, nat>)
    requires Ranked(nodes, rank)
    ensures Ranked(Skeleton(nodes), rank)
  {
  }

  // ---------------------------------------------------------------------------
  // Reachability: every manifest node a node depends on, directly or not.

  ghost function Reach(g: map<string, Node>, rank: map<string, nat>, k: string): set<string>
    requires Ranked(g, rank) && k in g
    decreases rank[k]
  {
    var direct := set d | d in g[k].dependsOn.nodes && d in g;
    direct + (set d, x | d in direct && x in Reach(g, rank, d) :: x)
  }

  /** What the nodes of `keys` reach. */
  ghost function ReachAll(g: map<string, Node>, rank: map<string, nat>, keys: seq<string>): set<string>
    requires Ranked(g, rank)
  {
    set k, x | k in keys && k in g && x in Reach(g, rank, k) :: x
  }

  /** A node reaches everything what it reaches reaches. */
  lemma {:induction false} ReachTransitive(g: map<string, Node>, rank: map<string, nat>, j: string, k: string)
    requires Ranked(g, rank) && j in g && k in Reach(g, rank, j)
    ensures k in g && Reach(g, rank, k) <= Reach(g, rank, j)
    decreases rank[j]
  {
    var direct := set d | d in g[j].dependsOn.nodes && d in g;
    if k !in direct {
      var d :| d in direct && k in Reach(g, rank, d);
      ReachTransitive(g, rank, d, k);
    }
  }

  /**
   * The list comprehension of `_filter_manifest`'s loop: the dependencies, in
   * the manifest, of the nodes of `keys` that are in the manifest.
   */
  function Next(nodes: map<string, Node>, keys: seq<string>): (r: seq<string>)
    ensures forall x :: x in r ==> x in nodes
  {
    if keys == [] then []
    else
      var k := keys[|keys| - 1];
      Next(nodes, keys[..|keys| - 1]) + if k in nodes then Present(nodes[k].dependsOn.nodes, nodes.Keys) else []
  }

  /** The members of `s` that are in `ks`, in order. */
  function Present(s: seq<string>, ks: set<string>): (r: seq<string>)
    ensures forall x :: x in r <==> x in s && x in ks
  {
    if s == [] then []
    else Present(s[..|s| - 1], ks) + if s[|s| - 1] in ks then [s[|s| - 1]] else []
  }

  /** `x` is a manifest dependency of some manifest node of `keys`. */
  ghost predicate DependencyOf(g: map<string, Node>, keys: seq<string>, x: string)
  {
    exists i :: 0 <= i < |keys| && keys[i] in g && x in g[keys[i]].dependsOn.nodes && x in g
  }

  lemma {:induction false} NextMembers(g: map<string, Node>, keys: seq<string>, x: string)
    ensures x in Next(g, keys) <==> DependencyOf(g, keys, x)
  {
    if keys != [] {
      NextMembers(g, keys[..|keys| - 1], x);
      DependencyOfSnoc(g, keys, x);
    }
  }

  lemma DependencyOfSnoc(g: map<string, Node>, keys: seq<string>, x: string)
    requires keys != []
    ensures DependencyOf(g, keys, x) <==>
      DependencyOf(g, keys[..|keys| - 1], x) || (keys[|keys| - 1] in g && x in g[keys[|keys| - 1]].dependsOn.nodes && x in g)
  {
    var init := keys[..|keys| - 1];
    if DependencyOf(g, init, x) {
      var i :| 0 <= i < |init| && init[i] in g && x in g[init[i]].dependsOn.nodes && x in g;
      assert keys[i] == init[i];
    }
    if DependencyOf(g, keys, x) {
      var i :| 0 <= i < |keys| && keys[i] in g && x in g[keys[i]].dependsOn.nodes && x in g;
      if i < |init| {
        assert init[i] == keys[i];
      }
    }
  }

  /** The loop computes on the manifest what it would on the graph. */
  lemma {:induction false} NextSkeleton(nodes: map<string, Node>, g: map<string, Node>, keys: seq<string>)
    requires SameGraph(nodes, g)
    ensures Next(nodes, keys) == Next(g, keys)
  {
    if keys != [] {
      NextSkeleton(nodes, g, keys[..|keys| - 1]);
      var k := keys[|keys| - 1];
      if k in nodes {
        assert g[k].dependsOn.nodes == WithoutDeep(nodes[k]).dependsOn.nodes;
      }
    }
  }

  /** One round of the loop: what `keys` reach is the next keys and what they reach. */
  lemma ReachAllStep(g: map<string, Node>, rank: map<string, nat>, keys: seq<string>)
    requires Ranked(g, rank)
    ensures ReachAll(g, rank, keys) == (set x | x in Next(g, keys)) + ReachAll(g, rank, Next(g, keys))
  {
    var next := Next(g, keys);
    forall x | x in ReachAll(g, rank, keys)
      ensures x in next || x in ReachAll(g, rank, next)
    {
      var k :| k in keys && k in g && x in Reach(g, rank, k);
      var direct := set d | d in g[k].dependsOn.nodes && d in g;
      var i :| 0 <= i < |keys| && keys[i] == k;
      if x in direct {
        NextMembers(g, keys, x);
      } else {
        var d :| d in direct && x in Reach(g, rank, d);
        NextMembers(g, keys, d);
      }
    }
    forall x | x in next || x in ReachAll(g, rank, next)
      ensures x in ReachAll(g, rank, keys)
    {
      if x in next {
        NextMembers(g, keys, x);
        var i :| 0 <= i < |keys| && keys[i] in g && x in g[keys[i]].dependsOn.nodes && x in g;
        assert x in Reach(g, rank, keys[i]);
      } else {
        var d :| d in next && d in g && x in Reach(g, rank, d);
        NextMembers(g, keys, d);
        var i :| 0 <= i < |keys| && keys[i] in g && d in g[keys[i]].dependsOn.nodes && d in g;
        assert x in Reach(g, rank, keys[i]);
      }
    }
  }

  /** One more than the largest rank among the manifest nodes of `keys`; 0 when there are none. */
  ghost function MaxRank(g: map<string, Node>, rank: map<string, nat>, keys: seq<string>): nat
    requires Ranked(g, rank)
  {
    if keys == [] then 0
    else
      var k := keys[|keys| - 1];
      var here := if k in g then rank[k] + 1 else 0;
      var rest := MaxRank(g, rank, keys[..|keys| - 1]);
      if rest < here then here else rest
  }

  lemma {:induction false} MaxRankBounds(g: map<string, Node>, rank: map<string, nat>, keys: seq<string>)
    requires Ranked(g, rank)
    ensures forall k :: k in keys && k in g ==> rank[k] < MaxRank(g, rank, keys)
    ensures MaxRank(g, rank, keys) == 0 || exists k :: k in keys && k in g && MaxRank(g, rank, keys) == rank[k] + 1
  {
    if keys != [] {
      var init := keys[..|keys| - 1];
      MaxRankBounds(g, rank, init);
      assert forall k :: k in keys ==> k in init || k == keys[|keys| - 1];
      if MaxRank(g, rank, keys) != 0 && MaxRank(g, rank, keys) == MaxRank(g, rank, init) {
        var k :| k in init && k in g && MaxRank(g, rank, init) == rank[k] + 1;
        assert k in keys;
      }
    }
  }

  /** What the filter loop still has to do: nothing once the keys run out. */
  ghost function FilterMeasure(g: map<string, Node>, rank: map<string, nat>, keys: seq<string>): nat
    requires Ranked(g, rank)
  {
    if keys == [] then 0 else MaxRank(g, rank, keys) + 1
  }

  /** Every round of the filter loop makes progress: the next keys have smaller ranks. */
  lemma FilterProgress(g: map<string, Node>, rank: map<string, nat>, keys: seq<string>)
    requires Ranked(g, rank) && keys != []
    ensures FilterMeasure(g, rank, Next(g, keys)) < FilterMeasure(g, rank, keys)
  {
    var next := Next(g, keys);
    if next != [] {
      MaxRankBounds(g, rank, keys);
      MaxRankBounds(g, rank, next);
      if MaxRank(g, rank, next) != 0 {
        var x :| x in next && x in g && MaxRank(g, rank, next) == rank[x] + 1;
        NextMembers(g, keys, x);
        var i :| 0 <= i < |keys| && keys[i] in g && x in g[keys[i]].dependsOn.nodes && x in g;
        assert keys[i] in keys;
      }
    }
  }

  /**
   * What `_filter_manifest` keeps for model `m`: the model, its listed
   * dependencies, and every manifest node those reach.
   */
  ghost function FilterClosure(g: map<string, Node>, rank: map<string, nat>, m: string): set<string>
    requires Ranked(g, rank) && m in g
  {
    {m} + (set d | d in g[m].dependsOn.nodes) + ReachAll(g, rank, g[m].dependsOn.nodes)
  }

  /** Within the manifest, the filter keeps the model and exactly the nodes it reaches. */
  lemma FilterClosureIsReach(g: map<string, Node>, rank: map<string, nat>, m: string)
    requires Ranked(g, rank) && m in g
    ensures FilterClosure(g, rank, m) * g.Keys == ({m} + Reach(g, rank, m)) * g.Keys
  {
    var deps := g[m].dependsOn.nodes;
    var direct := set d | d in deps && d in g;
    forall x | x in ReachAll(g, rank, deps)
      ensures x in Reach(g, rank, m)
    {
      var k :| k in deps && k in g && x in Reach(g, rank, k);
      assert k in direct;
    }
    forall x | x in Reach(g, rank, m) && x !in direct
      ensures x in ReachAll(g, rank, deps)
    {
      var d :| d in direct && x in Reach(g, rank, d);
    }
  }

  /** Whatever a node the filter keeps reaches, the filter keeps too. */
  lemma ClosureDownward(g: map<string, Node>, rank: map<string, nat>, m: string, k: string)
    requires Ranked(g, rank) && m in g && k in g && k in FilterClosure(g, rank, m)
    ensures Reach(g, rank, k) <= FilterClosure(g, rank, m)
  {
    var deps := g[m].dependsOn.nodes;
    if k == m {
      FilterClosureIsReach(g, rank, m);
    } else if k !in deps {
      var j :| j in deps && j in g && k in Reach(g, rank, j);
      ReachTransitive(g, rank, j, k);
    }
  }

  /** The filter loop so far: what is kept and what the keys still reach make up the closure. */
  ghost predicate FilterRound(g: map<string, Node>, rank: map<string, nat>, m: string,
                              filtered: seq<string>, keys: seq<string>)
  {
    Ranked(g, rank) && m in g && (set x | x in filtered) + ReachAll(g, rank, keys) == FilterClosure(g, rank, m)
  }

  lemma FilterStart(nodes: map<string, Node>, g: map<string, Node>, rank: map<string, nat>, m: string)
    requires Ranked(g, rank) && SameGraph(nodes, g) && m in g
    ensures FilterRound(g, rank, m, [m] + nodes[m].dependsOn.nodes, nodes[m].dependsOn.nodes)
  {
    var keys := nodes[m].dependsOn.nodes;
    assert keys == g[m].dependsOn.nodes;
    assert (set x | x in [m] + keys) == {m} + (set d | d in keys);
  }

  /** A round keeps the invariant and makes progress; with no keys left, the closure is kept. */
  lemma FilterStep(nodes: map<string, Node>, g: map<string, Node>, rank: map<string, nat>, m: string,
                   filtered: seq<string>, keys: seq<string>)
    requires SameGraph(nodes, g) && FilterRound(g, rank, m, filtered, keys) && keys != []
    ensures FilterRound(g, rank, m, filtered + Next(nodes, keys), Next(nodes, keys))
    ensures FilterMeasure(g, rank, Next(nodes, keys)) < FilterMeasure(g, rank, keys)
  {
    NextSkeleton(nodes, g, keys);
    ReachAllStep(g, rank, keys);
    FilterProgress(g, rank, keys);
    var next := Next(nodes, keys);
    assert (set x | x in filtered + next) == (set x | x in filtered) + (set x | x in next);
  }

  lemma FilterDone(g: map<string, Node>, rank: map<string, nat>, m: string, filtered: seq<string>)
    requires FilterRound(g, rank, m, filtered, [])
    ensures (set x | x in filtered) == FilterClosure(g, rank, m)
  {
    assert ReachAll(g, rank, []) == {};
  }

  // ---------------------------------------------------------------------------
  // Deep dependencies: what `_get_runnable_dependencies` returns.

  /**
   * One call of `_get_runnable_dependencies` over the listed dependencies
   * `ups`, given in `deep` what the calls it makes return: a runnable node
   * contributes its id, a node that is not runnable its own deep
   * dependencies, and a node missing from the manifest nothing.
   */
  ghost function DepsStep(g: map<string, Node>, deep: map<string, seq<string>>, ups: seq<string>): seq<string>
  {
    if ups == [] then []
    else
      var rest := DepsStep(g, deep, ups[..|ups| - 1]);
      var u := ups[|ups| - 1];
      if u !in g then rest
      else if Runnable(g[u]) then rest + [g[u].uniqueId]
      else rest + if u in deep then deep[u] else []
  }

  /**
   * `deep` holds the deep dependencies of every node: each entry is what one
   * call returns given the others, and so consists of runnable manifest
   * nodes of smaller rank.
   */
  ghost predicate DeepTable(g: map<string, Node>, rank: map<string, nat>, deep: map<string, seq<string>>)
    requires Ranked(g, rank)
  {
    deep.Keys == g.Keys &&
    (forall k :: k in g ==> deep[k] == DepsStep(g, deep, g[k].dependsOn.nodes)) &&
    (forall k, d :: k in g && d in deep[k] ==> d in g && Runnable(g[d]) && rank[d] < rank[k])
  }

  /** The deep dependencies of `k` found among `ups`, a prefix of its listed dependencies. */
  ghost function DepsOf(g: map<string, Node>, rank: map<string, nat>, k: string, ups: seq<string>): seq<string>
    requires Ranked(g, rank) && k in g
    requires forall u :: u in ups ==> u in g[k].dependsOn.nodes
    decreases rank[k], 0, |ups|
  {
    if ups == [] then []
    else
      var rest := DepsOf(g, rank, k, ups[..|ups| - 1]);
      var u := ups[|ups| - 1];
      if u !in g then rest
      else if Runnable(g[u]) then rest + [g[u].uniqueId]
      else rest + DeepDeps(g, rank, u)
  }

  /** The deep dependencies of `k`, by recursion down the acyclic graph. */
  ghost function DeepDeps(g: map<string, Node>, rank: map<string, nat>, k: string): seq<string>
    requires Ranked(g, rank) && k in g
    decreases rank[k], 1, 0
  {
    DepsOf(g, rank, k, g[k].dependsOn.nodes)
  }

  /** The deep dependencies of every node. */
  ghost function DeepMap(g: map<string, Node>, rank: map<string, nat>): map<string, seq<string>>
    requires Ranked(g, rank)
  {
    map k | k in g :: DeepDeps(g, rank, k)
  }

  /** Deep dependencies are runnable manifest nodes of smaller rank. */
  lemma {:induction false} DeepDepsFacts(g: map<string, Node>, rank: map<string, nat>, k: string)
    requires Ranked(g, rank) && k in g
    ensures forall d :: d in DeepDeps(g, rank, k) ==> d in g && Runnable(g[d]) && rank[d] < rank[k]
    decreases rank[k], 1, 0
  {
    DepsOfFacts(g, rank, k, g[k].dependsOn.nodes);
  }

  lemma {:induction false} DepsOfFacts(g: map<string, Node>, rank: map<string, nat>, k: string, ups: seq<string>)
    requires Ranked(g, rank) && k in g
    requires forall u :: u in ups ==> u in g[k].dependsOn.nodes
    ensures forall d :: d in DepsOf(g, rank, k, ups) ==> d in g && Runnable(g[d]) && rank[d] < rank[k]
    decreases rank[k], 0, |ups|
  {
    if ups != [] {
      var u := ups[|ups| - 1];
      DepsOfFacts(g, rank, k, ups[..|ups| - 1]);
      if u in g && !Runnable(g[u]) {
        DeepDepsFacts(g, rank, u);
      }
    }
  }

  lemma {:induction false} DepsOfStep(g: map<string, Node>, rank: map<string, nat>, k: string, ups: seq<string>)
    requires Ranked(g, rank) && k in g
    requires forall u :: u in ups ==> u in g[k].dependsOn.nodes
    ensures DepsOf(g, rank, k, ups) == DepsStep(g, DeepMap(g, rank), ups)
  {
    if ups != [] {
      DepsOfStep(g, rank, k, ups[..|ups| - 1]);
    }
  }

  /** The recursive definition gives a table of deep dependencies. */
  lemma DeepMapTable(g: map<string, Node>, rank: map<string, nat>)
    requires Ranked(g, rank)
    ensures DeepTable(g, rank, DeepMap(g, rank))
  {
    var deep := DeepMap(g, rank);
    forall k | k in g
      ensures deep[k] == DepsStep(g, deep, g[k].dependsOn.nodes)
      ensures forall d :: d in deep[k] ==> d in g && Runnable(g[d]) && rank[d] < rank[k]
    {
      DepsOfStep(g, rank, k, g[k].dependsOn.nodes);
      DeepDepsFacts(g, rank, k);
    }
  }

  /** A table of deep dependencies is unique: it is the recursive definition. */
  lemma {:induction false} DeepTableUnique(g: map<string, Node>, rank: map<string, nat>, deep: map<string, seq<string>>, k: string)
    requires Ranked(g, rank) && DeepTable(g, rank, deep) && k in g
    ensures deep[k] == DeepDeps(g, rank, k)
    decreases rank[k], 1, 0
  {
    StepUnique(g, rank, deep, k, g[k].dependsOn.nodes);
  }

  lemma {:induction false} StepUnique(g: map<string, Node>, rank: map<string, nat>, deep: map<string, seq<string>>,
                                      k: string, ups: seq<string>)
    requires Ranked(g, rank) && DeepTable(g, rank, deep) && k in g
    requires forall u :: u in ups ==> u in g[k].dependsOn.nodes
    ensures DepsStep(g, deep, ups) == DepsOf(g, rank, k, ups)
    decreases rank[k], 0, |ups|
  {
    if ups != [] {
      var u := ups[|ups| - 1];
      StepUnique(g, rank, deep, k, ups[..|ups| - 1]);
      if u in g && !Runnable(g[u]) {
        DeepTableUnique(g, rank, deep, u);
      }
    }
  }

  /** Deep dependencies are reached. */
  lemma {:induction false} DeepReach(g: map<string, Node>, rank: map<string, nat>, deep: map<string, seq<string>>, k: string)
    requires Ranked(g, rank) && DeepTable(g, rank, deep) && k in g
    ensures forall d :: d in deep[k] ==> d in Reach(g, rank, k)
    decreases rank[k], 1, 0
  {
    StepReach(g, rank, deep, k, g[k].dependsOn.nodes);
  }

  lemma {:induction false} StepReach(g: map<string, Node>, rank: map<string, nat>, deep: map<string, seq<string>>,
                                     k: string, ups: seq<string>)
    requires Ranked(g, rank) && DeepTable(g, rank, deep) && k in g
    requires forall u :: u in ups ==> u in g[k].dependsOn.nodes
    ensures forall d :: d in DepsStep(g, deep, ups) ==> d in Reach(g, rank, k)
    decreases rank[k], 0, |ups|
  {
    if ups != [] {
      var u := ups[|ups| - 1];
      StepReach(g, rank, deep, k, ups[..|ups| - 1]);
      if u in g {
        assert u in Reach(g, rank, k);
        if !Runnable(g[u]) {
          DeepReach(g, rank, deep, u);
          ReachTransitive(g, rank, k, u);
        }
      }
    }
  }

  /** `n` carries the deep dependencies of node `k` as `_get_runnable_dependencies` writes them. */
  ghost predicate Annotated(deep: map<string, seq<string>>, k: string, n: Node)
  {
    k in deep && n.dependsOn.deepNodes == Some(deep[k])
  }

  // ---------------------------------------------------------------------------
  // Depths: the generation a node runs in.

  /** 0 for a node with no deep dependencies, otherwise one more than the deepest of them. */
  ghost function Depth(g: map<string, Node>, rank: map<string, nat>, deep: map<string, seq<string>>, k: string): nat
    requires Ranked(g, rank) && DeepTable(g, rank, deep) && k in g
    decreases rank[k], 1, 0
  {
    MaxDepth(g, rank, deep, deep[k], rank[k])
  }

  /** The largest `1 + Depth(d)` over `ds`; 0 when `ds` is empty. */
  ghost function MaxDepth(g: map<string, Node>, rank: map<string, nat>, deep: map<string, seq<string>>,
                          ds: seq<string>, bound: nat): nat
    requires Ranked(g, rank) && DeepTable(g, rank, deep)
    requires forall d :: d in ds ==> d in g && rank[d] < bound
    decreases bound, 0, |ds|
  {
    if ds == [] then 0
    else
      var here := 1 + Depth(g, rank, deep, ds[|ds| - 1]);
      var rest := MaxDepth(g, rank, deep, ds[..|ds| - 1], bound);
      if rest < here then here else rest
  }

  lemma {:induction false} MaxDepthBounds(g: map<string, Node>, rank: map<string, nat>, deep: map<string, seq<string>>,
                                          ds: seq<string>, bound: nat)
    requires Ranked(g, rank) && DeepTable(g, rank, deep)
    requires forall d :: d in ds ==> d in g && rank[d] < bound
    ensures forall d :: d in ds ==> Depth(g, rank, deep, d) < MaxDepth(g, rank, deep, ds, bound)
    ensures ds != [] ==> exists d :: d in ds && MaxDepth(g, rank, deep, ds, bound) == 1 + Depth(g, rank, deep, d)
    ensures ds == [] ==> MaxDepth(g, rank, deep, ds, bound) == 0
  {
    if ds != [] {
      var init := ds[..|ds| - 1];
      var last := ds[|ds| - 1];
      MaxDepthBounds(g, rank, deep, init, bound);
      assert forall d :: d in ds ==> d in init || d == last;
      if init != [] && MaxDepth(g, rank, deep, ds, bound) == MaxDepth(g, rank, deep, init, bound) {
        var d :| d in init && MaxDepth(g, rank, deep, init, bound) == 1 + Depth(g, rank, deep, d);
        assert d in ds;
      } else {
        assert MaxDepth(g, rank, deep, ds, bound) == 1 + Depth(g, rank, deep, last);
        assert last in ds;
      }
    }
  }

  /** A node is deeper than its deep dependencies, and one of them is exactly one level up. */
  lemma DepthOfDeps(g: map<string, Node>, rank: map<string, nat>, deep: map<string, seq<string>>, k: string)
    requires Ranked(g, rank) && DeepTable(g, rank, deep) && k in g
    ensures forall d :: d in deep[k] ==> d in g && Depth(g, rank, deep, d) < Depth(g, rank, deep, k)
    ensures Depth(g, rank, deep, k) == 0 <==> deep[k] == []
    ensures Depth(g, rank, deep, k) > 0 ==>
      exists d :: d in deep[k] && Depth(g, rank, deep, d) == Depth(g, rank, deep, k) - 1
  {
    MaxDepthBounds(g, rank, deep, deep[k], rank[k]);
    if deep[k] != [] {
      assert deep[k][0] in deep[k];
    }
  }

  /** A set of nodes that holds the deep dependencies of each of its nodes. */
  ghost predicate Closed(g: map<string, Node>, deep: map<string, seq<string>>, keys: set<string>)
  {
    forall k :: k in keys ==> k in g && k in deep && forall d :: d in deep[k] ==> d in keys
  }

  // ---------------------------------------------------------------------------
  // Topological generations of a graph given as a dictionary of lists.

  /**
   * `depth` is the longest-path depth of the graph `graphData` on `keys`:
   * a node is deeper than each of its dependencies, and one of depth above
   * 0 has a dependency exactly one level up.
   */
  ghost predicate Layered(keys: set<string>, graphData: map<string, seq<string>>, depth: map<string, nat>)
  {
    graphData.Keys == keys && depth.Keys == keys &&
    (forall k, d :: k in keys && d in graphData[k] ==> d in keys && depth[d] < depth[k]) &&
    (forall k :: k in keys && depth[k] > 0 ==> exists d :: d in graphData[k] && d in keys && depth[d] == depth[k] - 1)
  }

  /**
   * `gens` are the generations of `keys` by `depth`: non-empty lists without
   * repeats, and node `k` is in generation `i` exactly when its depth is `i`.
   */
  ghost predicate IsLayers(keys: set<string>, depth: map<string, nat>, gens: seq<seq<string>>)
    requires depth.Keys == keys
  {
    (forall i :: 0 <= i < |gens| ==> gens[i] != [] && Distinct(gens[i])) &&
    (forall i, k :: 0 <= i < |gens| && k in gens[i] ==> k in keys && depth[k] == i) &&
    (forall k :: k in keys ==> depth[k] < |gens| && k in gens[depth[k]])
  }

  /** `s` is generation `i`: non-empty, without repeats, and its nodes are those of depth `i`. */
  ghost predicate Generation(keys: set<string>, depth: map<string, nat>, s: seq<string>, i: nat)
    requires depth.Keys == keys
  {
    s != [] && Distinct(s) && forall k :: k in s <==> k in Level(keys, depth, i)
  }

  /** The nodes of depth `i`. */
  ghost function Level(keys: set<string>, depth: map<string, nat>, i: nat): set<string>
    requires depth.Keys == keys
  {
    set k | k in keys && depth[k] == i
  }

  /** The nodes of `left` none of whose dependencies are left: one round's generation. */
  function Ready(graphData: map<string, seq<string>>, left: set<string>): (r: set<string>)
    ensures r <= left
  {
    set k | k in left && k in graphData && forall d :: d in graphData[k] ==> d !in left
  }

  /** Some node has depth `i` when some node has depth `i` or more. */
  lemma {:induction false} LayerNonEmpty(keys: set<string>, graphData: map<string, seq<string>>,
                                         depth: map<string, nat>, k: string, i: nat)
    requires Layered(keys, graphData, depth) && k in keys && depth[k] >= i
    ensures exists j :: j in keys && depth[j] == i
    decreases depth[k]
  {
    if depth[k] > i {
      var d :| d in graphData[k] && d in keys && depth[d] == depth[k] - 1;
      LayerNonEmpty(keys, graphData, depth, d, i);
    }
  }

  /** After `i` rounds, the ready nodes are those of depth `i`, and there are some while any node is left. */
  lemma LayerReady(keys: set<string>, graphData: map<string, seq<string>>, depth: map<string, nat>,
                   left: set<string>, i: nat)
    requires Layered(keys, graphData, depth)
    requires forall k :: k in left <==> k in keys && depth[k] >= i
    ensures forall k :: k in Ready(graphData, left) <==> k in keys && depth[k] == i
    ensures left != {} ==> Ready(graphData, left) != {}
  {
    forall k | k in left
      ensures k in Ready(graphData, left) <==> depth[k] == i
    {
      if depth[k] > i {
        var d :| d in graphData[k] && d in keys && depth[d] == depth[k] - 1;
        assert d in left;
      }
    }
    if left != {} {
      var k0 :| k0 in left;
      LayerNonEmpty(keys, graphData, depth, k0, i);
      var j :| j in keys && depth[j] == i;
      assert j in Ready(graphData, left);
    }
  }

  /**
   * After `|gens|` rounds: `left` holds the nodes of depth `|gens|` or more,
   * and each generation so far holds the nodes of its depth.
   */
  ghost predicate Stripped(keys: set<string>, depth: map<string, nat>, left: set<string>, gens: seq<seq<string>>)
    requires depth.Keys == keys
  {
    left <= keys && (forall k :: k in left <==> k in keys && depth[k] >= |gens|) &&
    forall i :: 0 <= i < |gens| ==> Generation(keys, depth, gens[i], i)
  }

  /** One round keeps the invariant and removes some node. */
  lemma StripStep(keys: set<string>, graphData: map<string, seq<string>>, depth: map<string, nat>,
                  left: set<string>, gens: seq<seq<string>>, s: seq<string>)
    requires Layered(keys, graphData, depth) && Stripped(keys, depth, left, gens) && left != {}
    requires Distinct(s) && forall k :: k in s <==> k in Ready(graphData, left)
    ensures Stripped(keys, depth, left - Ready(graphData, left), gens + [s])
    ensures |left - Ready(graphData, left)| < |left|
  {
    LayerReady(keys, graphData, depth, left, |gens|);
    var j :| j in Ready(graphData, left);
    assert j in s;
    StripLeft(keys, depth, left, Ready(graphData, left), |gens|);
    GenerationsSnoc(keys, depth, gens, s);
  }

  lemma StripLeft(keys: set<string>, depth: map<string, nat>, left: set<string>, ready: set<string>, i: nat)
    requires depth.Keys == keys && left <= keys
    requires forall k :: k in left <==> k in keys && depth[k] >= i
    requires forall k :: k in ready <==> k in keys && depth[k] == i
    ensures left - ready <= keys && forall k :: k in left - ready <==> k in keys && depth[k] >= i + 1
  {
  }

  lemma GenerationsSnoc(keys: set<string>, depth: map<string, nat>, gens: seq<seq<string>>, s: seq<string>)
    requires depth.Keys == keys
    requires forall i :: 0 <= i < |gens| ==> Generation(keys, depth, gens[i], i)
    requires s != [] && Distinct(s) && forall k :: k in s <==> k in keys && depth[k] == |gens|
    ensures forall i :: 0 <= i < |gens + [s]| ==> Generation(keys, depth, (gens + [s])[i], i)
  {
    assert Generation(keys, depth, s, |gens|);
    forall i | 0 <= i < |gens + [s]|
      ensures Generation(keys, depth, (gens + [s])[i], i)
    {
      if i < |gens| {
        assert (gens + [s])[i] == gens[i];
      }
    }
  }

  /** Once no node is left, the generations are complete. */
  lemma StripDone(keys: set<string>, depth: map<string, nat>, gens: seq<seq<string>>)
    requires depth.Keys == keys && Stripped(keys, depth, {}, gens)
    ensures IsLayers(keys, depth, gens)
  {
    forall k | k in keys
      ensures depth[k] < |gens| && k in gens[depth[k]]
    {
      assert Generation(keys, depth, gens[depth[k]], depth[k]);
    }
  }

  /**
   * `topological_generations`: strip the nodes none of whose dependencies
   * are left, round after round; each round's order is left open.
   */
  method TopologicalGenerations(keys: set<string>, graphData: map<string, seq<string>>, ghost depth: map<string, nat>)
    returns (gens: seq<seq<string>>)
    requires Layered(keys, graphData, depth)
    ensures IsLayers(keys, depth, gens)
  {
    var left := keys;
    gens := [];
    while left != {}
      invariant Stripped(keys, depth, left, gens)
      decreases |left|
    {
      var layer := Ready(graphData, left);
      var layerSeq := SetToSeq(layer);
      StripStep(keys, graphData, depth, left, gens, layerSeq);
      gens := gens + [layerSeq];
      left := left - layer;
    }
    StripDone(keys, depth, gens);
  }

  /** The depths of the nodes of `keys`. */
  ghost function DepthMap(g: map<string, Node>, rank: map<string, nat>, deep: map<string, seq<string>>,
                          keys: set<string>): map<string, nat>
    requires Ranked(g, rank) && DeepTable(g, rank, deep) && keys <= g.Keys
  {
    map k | k in keys :: Depth(g, rank, deep, k)
  }

  /** On a closed set of nodes, the dependency graph is layered by depth. */
  lemma DepthsLayered(g: map<string, Node>, rank: map<string, nat>, deep: map<string, seq<string>>,
                      keys: set<string>, graphData: map<string, seq<string>>)
    requires Ranked(g, rank) && DeepTable(g, rank, deep) && Closed(g, deep, keys)
    requires graphData.Keys == keys && forall k :: k in keys ==> graphData[k] == deep[k]
    ensures Layered(keys, graphData, DepthMap(g, rank, deep, keys))
  {
    var depth := DepthMap(g, rank, deep, keys);
    forall k | k in keys
      ensures forall d :: d in graphData[k] ==> d in keys && depth[d] < depth[k]
      ensures depth[k] > 0 ==> exists d :: d in graphData[k] && d in keys && depth[d] == depth[k] - 1
    {
      DepthOfDeps(g, rank, deep, k);
    }
  }

  /**
   * `gens` are the topological generations of `keys`: non-empty lists
   * without repeats, and node `k` is in generation `i` exactly when `k` is
   * scheduled and `i` is its depth.
   */
  ghost predicate IsGenerations(g: map<string, Node>, rank: map<string, nat>, deep: map<string, seq<string>>,
                                keys: set<string>, gens: seq<seq<string>>)
    requires Ranked(g, rank) && DeepTable(g, rank, deep) && keys <= g.Keys
  {
    IsLayers(keys, DepthMap(g, rank, deep, keys), gens)
  }

  // ---------------------------------------------------------------------------
  // What is scheduled.

  /**
   * `_get_runnable_keys`: the runnable nodes; with a (non-empty) model filter,
   * only those the filter keeps, and a key error when the model is missing
   * or is not among them.
   */
  ghost function ScheduledKeys(g: map<string, Node>, rank: map<string, nat>, filter: Option<string>): Result<set<string>>
    requires Ranked(g, rank)
  {
    if filter.None? || filter.value == "" then Ok(RunnableIds(g))
    else if filter.value !in g then Err(KeyError(filter.value))
    else
      var s := RunnableIds(g) * FilterClosure(g, rank, filter.value);
      if filter.value in s then Ok(s) else Err(KeyError(filter.value))
  }

  /**
   * What is scheduled: without a filter every runnable node; with model `m`
   * the model and the runnable nodes it reaches, and a key error exactly
   * when `m` is missing or not runnable. Nothing else is ever scheduled.
   */
  lemma ScheduledAreRunnable(g: map<string, Node>, rank: map<string, nat>, filter: Option<string>)
    requires Ranked(g, rank)
    ensures filter.None? || filter.value == "" ==> ScheduledKeys(g, rank, filter) == Ok(RunnableIds(g))
    ensures filter.Some? && filter.value != "" ==>
      (ScheduledKeys(g, rank, filter).Err? <==> filter.value !in g || !Runnable(g[filter.value]))
    ensures ScheduledKeys(g, rank, filter).Err? ==> ScheduledKeys(g, rank, filter).error == KeyError(filter.value)
    ensures filter.Some? && filter.value != "" && ScheduledKeys(g, rank, filter).Ok? ==>
      ScheduledKeys(g, rank, filter).value == RunnableIds(g) * ({filter.value} + Reach(g, rank, filter.value))
  {
    if filter.Some? && filter.value != "" && filter.value in g {
      var m := filter.value;
      FilterClosureIsReach(g, rank, m);
      assert RunnableIds(g) <= g.Keys;
      assert RunnableIds(g) * FilterClosure(g, rank, m) == RunnableIds(g) * (FilterClosure(g, rank, m) * g.Keys);
      assert RunnableIds(g) * ({m} + Reach(g, rank, m)) == RunnableIds(g) * (({m} + Reach(g, rank, m)) * g.Keys);
    }
  }

  /** The scheduled nodes hold the deep dependencies of each of them. */
  lemma ScheduledClosed(g: map<string, Node>, rank: map<string, nat>, deep: map<string, seq<string>>, filter: Option<string>)
    requires Ranked(g, rank) && DeepTable(g, rank, deep) && ScheduledKeys(g, rank, filter).Ok?
    ensures Closed(g, deep, ScheduledKeys(g, rank, filter).value)
  {
    var keys := ScheduledKeys(g, rank, filter).value;
    forall k | k in keys
      ensures k in g && k in deep && forall d :: d in deep[k] ==> d in keys
    {
      if filter.Some? && filter.value != "" {
        DeepReach(g, rank, deep, k);
        ClosureDownward(g, rank, filter.value, k);
      }
    }
  }

  /** The first generation holds the scheduled nodes with no deep dependencies. */
  lemma FirstGenerationHasNoDependencies(g: map<string, Node>, rank: map<string, nat>, deep: map<string, seq<string>>,
                                         keys: set<string>, gens: seq<seq<string>>, k: string)
    requires Ranked(g, rank) && DeepTable(g, rank, deep) && keys <= g.Keys && IsGenerations(g, rank, deep, keys, gens)
    requires k in keys
    ensures |gens| > 0 && (k in gens[0] <==> deep[k] == [])
  {
    DepthOfDeps(g, rank, deep, k);
    assert DepthMap(g, rank, deep, keys)[k] == Depth(g, rank, deep, k);
  }

  /** Every deep dependency of a scheduled node is scheduled in an earlier generation. */
  lemma DependenciesRunEarlier(g: map<string, Node>, rank: map<string, nat>, deep: map<string, seq<string>>,
                               keys: set<string>, gens: seq<seq<string>>, i: int, k: string, d: string)
    requires Ranked(g, rank) && DeepTable(g, rank, deep) && Closed(g, deep, keys)
    requires keys <= g.Keys && IsGenerations(g, rank, deep, keys, gens)
    requires 0 <= i < |gens| && k in gens[i] && d in deep[k]
    ensures d in keys && exists j :: 0 <= j < i && d in gens[j]
  {
    var depth := DepthMap(g, rank, deep, keys);
    assert k in keys && depth[k] == i;
    DepthOfDeps(g, rank, deep, k);
    assert d in keys && depth[d] < i && d in gens[depth[d]];
  }

  /** The nodes of `ks` in the manifest, in order: the list comprehension of `__iter__`. */
  function NodesOf(nodes: map<string, Node>, ks: seq<string>): (r: seq<Node>)
    ensures |r| <= |ks|
    ensures (forall k :: k in ks ==> k in nodes) ==>
      |r| == |ks| && forall j :: 0 <= j < |ks| ==> r[j] == nodes[ks[j]]
  {
    if ks == [] then []
    else
      var rest := NodesOf(nodes, ks[..|ks| - 1]);
      var k := ks[|ks| - 1];
      assert forall j :: j in ks[..|ks| - 1] ==> j in ks;
      rest + if k in nodes then [nodes[k]] else []
  }

  /**
   * What `__iter__` yields: generation `i` lists the manifest nodes of the
   * `i`-th generation of ids, and every scheduled node carries its deep
   * dependencies.
   */
  ghost predicate ScheduledNodes(deep: map<string, seq<string>>, keys: set<string>, nodes: map<string, Node>,
                                 gens: seq<seq<string>>, out: seq<seq<Node>>)
  {
    |out| == |gens| &&
    (forall i :: 0 <= i < |gens| ==> |out[i]| == |gens[i]|) &&
    (forall i, j :: 0 <= i < |gens| && 0 <= j < |gens[i]| ==> gens[i][j] in nodes && out[i][j] == nodes[gens[i][j]]) &&
    (forall k :: k in keys ==> k in nodes && Annotated(deep, k, nodes[k]))
  }

  /** Listing the nodes of each generation gives what `__iter__` yields. */
  lemma GenerationNodes(deep: map<string, seq<string>>, keys: set<string>, depth: map<string, nat>,
                        nodes: map<string, Node>, gens: seq<seq<string>>, out: seq<seq<Node>>)
    requires depth.Keys == keys && IsLayers(keys, depth, gens)
    requires forall k :: k in keys ==> k in nodes && Annotated(deep, k, nodes[k])
    requires |out| == |gens| && forall i :: 0 <= i < |gens| ==> out[i] == NodesOf(nodes, gens[i])
    ensures ScheduledNodes(deep, keys, nodes, gens, out)
  {
    forall i | 0 <= i < |gens|
      ensures |out[i]| == |gens[i]|
      ensures forall j :: 0 <= j < |gens[i]| ==> gens[i][j] in nodes && out[i][j] == nodes[gens[i][j]]
    {
      assert forall k :: k in gens[i] ==> k in nodes;
    }
  }

  /** Only deep dependencies were written: each node of `after` is as in `before`, or annotated. */
  ghost predicate Written(deep: map<string, seq<string>>, before: map<string, Node>, after: map<string, Node>)
  {
    after.Keys == before.Keys && forall j :: j in after ==> after[j] == before[j] || Annotated(deep, j, after[j])
  }

  lemma WrittenRefl(deep: map<string, seq<string>>, nodes: map<string, Node>)
    ensures Written(deep, nodes, nodes)
  {
  }

  lemma WrittenTrans(deep: map<string, seq<string>>, a: map<string, Node>, b: map<string, Node>, c: map<string, Node>)
    requires Written(deep, a, b) && Written(deep, b, c)
    ensures Written(deep, a, c)
  {
  }

  /** Writing the deep dependencies of `k` into its node keeps the graph and annotates the node. */
  lemma AnnotateNode(g: map<string, Node>, deep: map<string, seq<string>>, nodes0: map<string, Node>,
                     nodes: map<string, Node>, k: string)
    requires SameGraph(nodes, g) && Written(deep, nodes0, nodes) && k in nodes && k in deep
    ensures SameGraph(nodes[k := WithDeepNodes(nodes[k], deep[k])], g)
    ensures Written(deep, nodes0, nodes[k := WithDeepNodes(nodes[k], deep[k])])
    ensures Annotated(deep, k, nodes[k := WithDeepNodes(nodes[k], deep[k])][k])
  {
  }

  /** One step of the loop of `_get_runnable_dependencies`, read off the manifest instead of the graph. */
  lemma DepsStepNodes(g: map<string, Node>, deep: map<string, seq<string>>, nodes: map<string, Node>,
                      ups: seq<string>, i: nat)
    requires SameGraph(nodes, g) && i < |ups|
    ensures DepsStep(g, deep, ups[..i + 1]) == DepsStep(g, deep, ups[..i]) +
      if ups[i] !in nodes then []
      else if Runnable(nodes[ups[i]]) then [nodes[ups[i]].uniqueId]
      else if ups[i] in deep then deep[ups[i]] else []
  {
    assert ups[..i + 1][..i] == ups[..i];
    if ups[i] in nodes {
      assert g[ups[i]] == WithoutDeep(nodes[ups[i]]);
    }
  }

  /**
   * `graphData` holds the deep dependencies of the nodes of `keys` done so
   * far (all but `todo`), each written into its node.
   */
  ghost predicate Collected(deep: map<string, seq<string>>, keys: set<string>, todo: set<string>,
                            graphData: map<string, seq<string>>, nodes: map<string, Node>)
  {
    todo <= keys && graphData.Keys == keys - todo &&
    forall k :: k in graphData ==> k in nodes && Annotated(deep, k, nodes[k]) && graphData[k] == deep[k]
  }

  lemma RemoveOne(s: set<string>, x: string)
    requires x in s
    ensures |s - {x}| < |s|
  {
  }

  lemma CollectStep(deep: map<string, seq<string>>, keys: set<string>, todo: set<string>,
                    graphData: map<string, seq<string>>, before: map<string, Node>, after: map<string, Node>, k: string)
    requires Collected(deep, keys, todo, graphData, before) && k in todo
    requires Written(deep, before, after) && k in after && Annotated(deep, k, after[k])
    ensures Collected(deep, keys, todo - {k}, graphData[k := deep[k]], after)
  {
  }

  // ---------------------------------------------------------------------------
  // The scheduler.

  class ManifestScheduler {
    /** The manifest's nodes; only their deep dependencies are ever written. */
    var nodes: map<string, Node>
    const modelFilter: Option<string>
    /** The dependency graph: the nodes as they were, without deep dependencies. */
    ghost const graph: map<string, Node>
    ghost const rank: map<string, nat>
    /** The deep dependencies of every node. */
    ghost const deep: map<string, seq<string>>

    ghost predicate Valid()
      reads this
    {
      Ranked(graph, rank) && DeepTable(graph, rank, deep) && SameGraph(nodes, graph)
    }

    constructor (manifest: Manifest, model: Option<string>, ghost rank: map<string, nat>)
      requires Ranked(manifest.nodes, rank)
      ensures Valid()
      ensures nodes == manifest.nodes && modelFilter == model && graph == Skeleton(manifest.nodes)
      ensures this.rank == rank && deep == DeepMap(graph, rank)
    {
      RankedSkeleton(manifest.nodes, rank);
      DeepMapTable(Skeleton(manifest.nodes), rank);
      nodes := manifest.nodes;
      modelFilter := model;
      graph := Skeleton(manifest.nodes);
      this.rank := rank;
      deep := DeepMap(Skeleton(manifest.nodes), rank);
    }

    /**
     * `_filter_manifest`: every key without a filter; otherwise the model and
     * its dependencies, then their dependencies in the manifest, round after
     * round until a round finds none.
     */
    method FilterManifest() returns (r: Result<set<string>>)
      requires Valid()
      ensures modelFilter.None? ==> r == Ok(nodes.Keys)
      ensures modelFilter.Some? && modelFilter.value !in nodes ==> r == Err(KeyError(modelFilter.value))
      ensures modelFilter.Some? && modelFilter.value in nodes ==>
        r == Ok(FilterClosure(graph, rank, modelFilter.value))
    {
      if modelFilter.None? {
        return Ok(nodes.Keys);
      }
      var m := modelFilter.value;
      if m !in nodes {
        return Err(KeyError(m));
      }
      var keys := nodes[m].dependsOn.nodes;
      var filtered := [m] + keys;
      FilterStart(nodes, graph, rank, m);
      while keys != []
        invariant FilterRound(graph, rank, m, filtered, keys)
        decreases FilterMeasure(graph, rank, keys)
      {
        FilterStep(nodes, graph, rank, m, filtered, keys);
        var next := Next(nodes, keys);
        filtered := filtered + next;
        keys := next;
      }
      FilterDone(graph, rank, m, filtered);
      return Ok(set x | x in filtered);
    }

    /** `_get_runnable_keys`: a truthy filter narrows the runnable nodes and must be among them. */
    method GetRunnableKeys() returns (r: Result<set<string>>)
      requires Valid()
      ensures r == ScheduledKeys(graph, rank, modelFilter)
    {
      var remaining := RunnableIds(nodes);
      assert remaining == RunnableIds(graph) by {
        forall k | k in nodes
          ensures Runnable(nodes[k]) == Runnable(graph[k])
        {
          assert graph[k] == WithoutDeep(nodes[k]);
        }
      }
      if modelFilter.Some? && modelFilter.value != "" {
        var filtered := FilterManifest();
        if filtered.Err? {
          return Err(filtered.error);
        }
        remaining := remaining * filtered.value;
        if modelFilter.value !in remaining {
          return Err(KeyError(modelFilter.value));
        }
      }
      return Ok(remaining);
    }

    /** `__len__`: how many nodes are scheduled, or the key error of a bad filter. */
    method Len() returns (r: Result<nat>)
      requires Valid()
      ensures ScheduledKeys(graph, rank, modelFilter).Err? ==> r == Err(ScheduledKeys(graph, rank, modelFilter).error)
      ensures ScheduledKeys(graph, rank, modelFilter).Ok? ==> r == Ok(|ScheduledKeys(graph, rank, modelFilter).value|)
    {
      var keys := GetRunnableKeys();
      if keys.Err? {
        return Err(keys.error);
      }
      return Ok(|keys.value|);
    }

    /**
     * `_get_runnable_dependencies`: the deep dependencies of node `k`, which
     * are also written into its `depends_on.deep_nodes`; any node it visits
     * gets its own written the same way, and nothing else changes.
     */
    method GetRunnableDependencies(k: string) returns (deps: seq<string>)
      requires Valid() && k in nodes
      modifies this
      ensures Valid() && Written(deep, old(nodes), nodes)
      ensures deps == deep[k]
      ensures Annotated(deep, k, nodes[k])
      decreases rank[k]
    {
      var ups := nodes[k].dependsOn.nodes;
      assert graph[k] == WithoutDeep(nodes[k]);
      WrittenRefl(deep, nodes);
      var upstreamDeps: seq<string> := [];
      for i := 0 to |ups|
        invariant Valid() && Written(deep, old(nodes), nodes)
        invariant upstreamDeps == DepsStep(graph, deep, ups[..i])
      {
        DepsStepNodes(graph, deep, nodes, ups, i);
        var u := ups[i];
        if u in nodes {
          var upNode := nodes[u];
          if Runnable(upNode) {
            upstreamDeps := upstreamDeps + [upNode.uniqueId];
          } else {
            ghost var before := nodes;
            var more := GetRunnableDependencies(u);
            WrittenTrans(deep, old(nodes), before, nodes);
            upstreamDeps := upstreamDeps + more;
          }
        }
      }
      assert ups[..|ups|] == ups;
      AnnotateNode(graph, deep, old(nodes), nodes, k);
      nodes := nodes[k := WithDeepNodes(nodes[k], upstreamDeps)];
      deps := upstreamDeps;
    }

    /**
     * The dictionary comprehension of `_calculate_depths`: the deep
     * dependencies of each node of `keys`, each written into its node.
     */
    method DeepDependencies(keys: set<string>) returns (graphData: map<string, seq<string>>)
      requires Valid() && keys <= nodes.Keys
      modifies this
      ensures Valid() && Written(deep, old(nodes), nodes)
      ensures Collected(deep, keys, {}, graphData, nodes)
    {
      graphData := map[];
      var todo := keys;
      WrittenRefl(deep, nodes);
      while todo != {}
        invariant Valid() && Written(deep, old(nodes), nodes)
        invariant Collected(deep, keys, todo, graphData, nodes)
        decreases |todo|
      {
        var k :| k in todo;
        ghost var before := nodes;
        var deps := GetRunnableDependencies(k);
        WrittenTrans(deep, old(nodes), before, nodes);
        CollectStep(deep, keys, todo, graphData, before, nodes, k);
        RemoveOne(todo, k);
        graphData := graphData[k := deps];
        todo := todo - {k};
      }
    }

    /**
     * `_calculate_depths`: the deep dependencies of every scheduled node,
     * then the topological generations of the graph they form.
     */
    method CalculateDepths() returns (r: Result<seq<seq<string>>>)
      requires Valid()
      modifies this
      ensures Valid()
      ensures ScheduledKeys(graph, rank, modelFilter).Err? ==>
        r == Err(ScheduledKeys(graph, rank, modelFilter).error) && nodes == old(nodes)
      ensures ScheduledKeys(graph, rank, modelFilter).Ok? ==>
        var keys := ScheduledKeys(graph, rank, modelFilter).value;
        r.Ok? && Closed(graph, deep, keys) && keys <= graph.Keys && IsGenerations(graph, rank, deep, keys, r.value)
        && forall k :: k in keys ==> k in nodes && Annotated(deep, k, nodes[k])
      ensures Written(deep, old(nodes), nodes)
    {
      var remaining := GetRunnableKeys();
      if remaining.Err? {
        WrittenRefl(deep, nodes);
        return Err(remaining.error);
      }
      var keys := remaining.value;
      ScheduledClosed(graph, rank, deep, modelFilter);
      var graphData := DeepDependencies(keys);
      DepthsLayered(graph, rank, deep, keys, graphData);
      var gens := TopologicalGenerations(keys, graphData, DepthMap(graph, rank, deep, keys));
      return Ok(gens);
    }

    /**
     * `__iter__`: the generations, each as the list of its nodes, which by
     * then carry their deep dependencies.
     */
    method Iterate() returns (r: Result<seq<seq<Node>>>, ghost gens: seq<seq<string>>)
      requires Valid()
      modifies this
      ensures Valid() && nodes.Keys == old(nodes).Keys
      ensures ScheduledKeys(graph, rank, modelFilter).Err? ==> r == Err(ScheduledKeys(graph, rank, modelFilter).error)
      ensures ScheduledKeys(graph, rank, modelFilter).Ok? ==>
        var keys := ScheduledKeys(graph, rank, modelFilter).value;
        r.Ok? && keys <= graph.Keys && IsGenerations(graph, rank, deep, keys, gens)
        && ScheduledNodes(deep, keys, nodes, gens, r.value)
    {
      var depths := CalculateDepths();
      if depths.Err? {
        return Err(depths.error), [];
      }
      var ids := depths.value;
      gens := ids;
      var out: seq<seq<Node>> := [];
      for i := 0 to |ids|
        invariant |out| == i
        invariant forall j :: 0 <= j < i ==> out[j] == NodesOf(nodes, ids[j])
      {
        out := out + [NodesOf(nodes, ids[i])];
      }
      GenerationNodes(deep, ScheduledKeys(graph, rank, modelFilter).value, DepthMap(graph, rank, deep, ScheduledKeys(graph, rank, modelFilter).value), nodes, gens, out);
      return Ok(out), gens;
    }
  }
}
