/**
 * The executor: the manifest is checked to hold only SQL nodes, then the
 * scheduler's generations are dry run one after the other. Each node goes
 * to the runner registered for its resource type, is linted when it asks
 * for it, and its result is stored under its id. The thread pool is
 * modelled sequentially: the nodes of a generation run in order, all of
 * them run even when one raises, and the generation's first failure (in
 * generation order) then ends the dry run.
 */
module Execution {
  import opened Wrappers
  import opened Exceptions
  import opened Seqs
  import opened Manifest
  import opened DryRunResults
  import opened ResultStore
  import opened NodeDispatch
  import opened ColumnLinting
  import opened Scheduler

  // ---------------------------------------------------------------------------
  // Manifest compatibility

  /** A node the executor refuses: its language is given and is not "sql". */
  predicate NotSql(node: Node)
  {
    node.language.Some? && node.language.value != "sql"
  }

  /** The ids of the non-SQL nodes among the nodes under `keys`, in that order. */
  function NonSqlIds(nodes: map<string, Node>, keys: seq<string>): (ids: seq<string>)
    requires forall i :: 0 <= i < |keys| ==> keys[i] in nodes
    ensures |ids| <= |keys|
  {
    if keys == [] then []
    else
      var last := nodes[keys[|keys| - 1]];
      NonSqlIds(nodes, keys[..|keys| - 1]) + if NotSql(last) then [last.uniqueId] else []
  }

  /** Every non-SQL node is listed, and nothing else is. */
  lemma {:induction false} NonSqlIdsListsEvery(nodes: map<string, Node>, keys: seq<string>)
    requires forall i :: 0 <= i < |keys| ==> keys[i] in nodes
    ensures forall id :: id in NonSqlIds(nodes, keys) <==>
      exists i :: 0 <= i < |keys| && NotSql(nodes[keys[i]]) && nodes[keys[i]].uniqueId == id
    decreases |keys|
  {
    if keys != [] {
      var init := keys[..|keys| - 1];
      NonSqlIdsListsEvery(nodes, init);
      forall id ensures id in NonSqlIds(nodes, keys) <==>
        exists i :: 0 <= i < |keys| && NotSql(nodes[keys[i]]) && nodes[keys[i]].uniqueId == id
      {
        if exists i :: 0 <= i < |keys| && NotSql(nodes[keys[i]]) && nodes[keys[i]].uniqueId == id {
          var i :| 0 <= i < |keys| && NotSql(nodes[keys[i]]) && nodes[keys[i]].uniqueId == id;
          if i < |init| {
            assert init[i] == keys[i];
          }
        }
        if id in NonSqlIds(nodes, init) {
          var i :| 0 <= i < |init| && NotSql(nodes[init[i]]) && nodes[init[i]].uniqueId == id;
          assert keys[i] == init[i];
        }
      }
    }
  }

  /**
   * `validate_manifest_compatibility`: the nodes are visited in the
   * manifest's order `keys`, and a validation error listing the id of every
   * node whose language is neither absent nor "sql" is raised when there is
   * one; `None` stands for returning normally.
   */
  method ValidateManifestCompatibility(manifest: Manifest, keys: seq<string>) returns (r: Option<Error>)
    requires Distinct(keys) && forall k :: k in manifest.nodes <==> k in keys
    ensures r.None? <==> forall k :: k in manifest.nodes ==> !NotSql(manifest.nodes[k])
    ensures r.None? <==> NonSqlIds(manifest.nodes, keys) == []
    ensures r.Some? ==> r.value == ManifestValidation(NonSqlIds(manifest.nodes, keys))
    ensures r.Some? ==> forall k :: k in manifest.nodes && NotSql(manifest.nodes[k]) ==>
      manifest.nodes[k].uniqueId in r.value.failingNodes
  {
    var failingNodes: seq<string> := [];
    for i := 0 to |keys|
      invariant failingNodes == NonSqlIds(manifest.nodes, keys[..i])
    {
      var node := manifest.nodes[keys[i]];
      assert keys[..i + 1][..i] == keys[..i];
      if node.language.Some? && node.language.value != "sql" {
        failingNodes := failingNodes + [node.uniqueId];
      }
    }
    assert keys[..|keys|] == keys;
    NonSqlIdsEmpty(manifest.nodes, keys);
    if failingNodes != [] {
      return Some(ManifestValidation(failingNodes));
    }
    return None;
  }

  /** No id is listed exactly when every node is SQL, and every non-SQL node's id is listed. */
  lemma NonSqlIdsEmpty(nodes: map<string, Node>, keys: seq<string>)
    requires forall k :: k in nodes <==> k in keys
    ensures NonSqlIds(nodes, keys) == [] <==> forall k :: k in nodes ==> !NotSql(nodes[k])
    ensures forall k :: k in nodes && NotSql(nodes[k]) ==> nodes[k].uniqueId in NonSqlIds(nodes, keys)
  {
    var ids := NonSqlIds(nodes, keys);
    NonSqlIdsListsEvery(nodes, keys);
    if ids != [] {
      assert ids[0] in ids;
      var i :| 0 <= i < |keys| && NotSql(nodes[keys[i]]) && nodes[keys[i]].uniqueId == ids[0];
      assert keys[i] in nodes;
    }
    forall k | k in nodes && NotSql(nodes[k]) ensures nodes[k].uniqueId in ids {
      var i :| 0 <= i < |keys| && keys[i] == k;
    }
  }

  // ---------------------------------------------------------------------------
  // One node

  /**
   * What a runner's `run` returns for a node, given the results stored so
   * far: runners read the results of the nodes upstream of theirs. The
   * runners themselves are modelled in their own modules.
   */
  type RunFn = (RunnerKind, Node, map<string, DryRunResult>) -> Result<DryRunResult>

  /**
   * The runners by resource type with what they need: whether a node that
   * was not compiled is skipped, whether a node asks for its columns to be
   * linted (`Node.get_should_check_columns`), and what `run` returns.
   */
  datatype Runners = Runners(byType: map<string, RunnerKind>, skipNotCompiled: bool,
                             checkColumns: Node -> bool, run: RunFn)

  /** What `dry_run_node` stores for a node, or the exception it raises. */
  ghost function NodeOutcome(rs: Runners, node: Node, store: map<string, DryRunResult>): Result<DryRunResult>
  {
    match DispatchByType(node, rs.byType, rs.skipNotCompiled, k => rs.run(k, node, store))
    case Err(e) => Err(e)
    case Ok(v) => Ok(if rs.checkColumns(node) then Linted(node, v) else v)
  }

  /** The contents of a result store: the results by id and the ids in insertion order. */
  datatype Store = Store(results: map<string, DryRunResult>, order: seq<string>)

  /** `add_result` on a store's contents. */
  function Added(s: Store, key: string, v: DryRunResult): Store
  {
    Store(s.results[key := v], if key in s.results then s.order else s.order + [key])
  }

  /** A store's ids are listed once each, in its order. */
  ghost predicate StoreValid(s: Store)
  {
    Distinct(s.order) && forall k :: k in s.results <==> k in s.order
  }

  /**
   * `dry_run_node`: dispatches the node (by resource type, validation
   * first), lints the result when the node asks for it,
   * and stores it under the node's id; an exception from the dispatch
   * propagates and nothing is stored.
   */
  method DryRunNode(rs: Runners, node: Node, results: Results) returns (r: Option<Error>)
    requires results.Valid()
    modifies results
    ensures results.Valid()
    ensures NodeOutcome(rs, node, old(results.results)).Err? ==>
      r == Some(NodeOutcome(rs, node, old(results.results)).error)
      && results.results == old(results.results) && results.order == old(results.order)
    ensures NodeOutcome(rs, node, old(results.results)).Ok? ==>
      r.None?
      && Store(results.results, results.order)
         == Added(Store(old(results.results), old(results.order)), node.uniqueId,
                  NodeOutcome(rs, node, old(results.results)).value)
  {
    if node.resourceType !in rs.byType {
      return Some(ValueError(node.resourceType));
    }
    var runner := rs.byType[node.resourceType];
    var result: DryRunResult;
    var validation := ValidateNode(runner, node, rs.skipNotCompiled);
    if validation.Some? {
      result := validation.value;
    } else {
      var ran := rs.run(runner, node, results.results);
      if ran.Err? {
        return Some(ran.error);
      }
      result := ran.value;
    }
    if rs.checkColumns(node) {
      result := LintColumns(node, result);
    }
    results.AddResult(node.uniqueId, result);
    return None;
  }

  /** Storing a result keeps a store's ids listed once each, and adds exactly its key. */
  lemma AddedValid(s: Store, key: string, v: DryRunResult)
    requires StoreValid(s)
    ensures StoreValid(Added(s, key, v))
    ensures Added(s, key, v).results.Keys == s.results.Keys + {key}
    ensures Added(s, key, v).results[key] == v
  {
  }

  // ---------------------------------------------------------------------------
  // A generation

  /**
   * The nodes of a generation run in order from store `s`: the store after
   * all of them, and the exception `_wait_for_generation` raises for the
   * first node that raised, naming it.
   */
  ghost function RunNodes(rs: Runners, gen: seq<Node>, s: Store): (Store, Option<Error>)
    decreases |gen|
  {
    if gen == [] then (s, None)
    else
      var before := RunNodes(rs, gen[..|gen| - 1], s);
      var node := gen[|gen| - 1];
      match NodeOutcome(rs, node, before.0.results)
      case Err(e) => (before.0, if before.1.Some? then before.1 else Some(NodeExecution(node.uniqueId, e)))
      case Ok(v) => (Added(before.0, node.uniqueId, v), before.1)
  }

  /**
   * One generation: every node is dry run, then the first exception among
   * them, in generation order, is re-raised as a node execution error
   * naming its node.
   */
  method RunGeneration(rs: Runners, gen: seq<Node>, results: Results) returns (r: Option<Error>)
    requires results.Valid()
    modifies results
    ensures results.Valid()
    ensures (Store(results.results, results.order), r)
            == RunNodes(rs, gen, Store(old(results.results), old(results.order)))
  {
    ghost var start := Store(results.results, results.order);
    r := None;
    for i := 0 to |gen|
      invariant results.Valid()
      invariant (Store(results.results, results.order), r) == RunNodes(rs, gen[..i], start)
    {
      assert gen[..i + 1][..i] == gen[..i];
      var failure := DryRunNode(rs, gen[i], results);
      if failure.Some? && r.None? {
        r := Some(NodeExecution(gen[i].uniqueId, failure.value));
      }
    }
    assert gen[..|gen|] == gen;
  }

  /** The result of the node at `i` when the nodes before it have run. */
  ghost function OutcomeAt(rs: Runners, gen: seq<Node>, s: Store, i: nat): Result<DryRunResult>
    requires i < |gen|
  {
    NodeOutcome(rs, gen[i], RunNodes(rs, gen[..i], s).0.results)
  }

  /** Running one more node keeps the earlier results' ids. */
  lemma {:induction false} RunNodesGrows(rs: Runners, gen: seq<Node>, s: Store)
    ensures s.results.Keys <= RunNodes(rs, gen, s).0.results.Keys
    ensures StoreValid(s) ==> StoreValid(RunNodes(rs, gen, s).0)
    decreases |gen|
  {
    if gen != [] {
      var before := RunNodes(rs, gen[..|gen| - 1], s);
      RunNodesGrows(rs, gen[..|gen| - 1], s);
      var node := gen[|gen| - 1];
      var o := NodeOutcome(rs, node, before.0.results);
      if o.Ok? {
        if StoreValid(s) {
          AddedValid(before.0, node.uniqueId, o.value);
        }
      }
    }
  }

  /**
   * A raising node does not stop the others: every node of the generation
   * whose dispatch returned has its result stored afterwards.
   */
  lemma {:induction false} RunNodesStoresEvery(rs: Runners, gen: seq<Node>, s: Store)
    ensures forall i :: 0 <= i < |gen| && OutcomeAt(rs, gen, s, i).Ok? ==>
      gen[i].uniqueId in RunNodes(rs, gen, s).0.results
    decreases |gen|
  {
    if gen != [] {
      var n := |gen| - 1;
      var init := gen[..n];
      var before := RunNodes(rs, init, s);
      RunNodesStoresEvery(rs, init, s);
      var after := RunNodes(rs, gen, s);
      assert before.0.results.Keys <= after.0.results.Keys;
      forall i | 0 <= i < |gen| && OutcomeAt(rs, gen, s, i).Ok?
        ensures gen[i].uniqueId in after.0.results
      {
        if i < n {
          assert gen[..i] == init[..i] && gen[i] == init[i];
          assert OutcomeAt(rs, init, s, i).Ok?;
        } else {
          assert gen[..i] == init;
        }
      }
    }
  }

  /** The outcomes of a generation's first nodes do not depend on the nodes after them. */
  lemma OutcomeAtPrefix(rs: Runners, gen: seq<Node>, s: Store, j: nat)
    requires j < |gen| - 1
    ensures OutcomeAt(rs, gen, s, j) == OutcomeAt(rs, gen[..|gen| - 1], s, j)
  {
    assert gen[..j] == gen[..|gen| - 1][..j];
  }

  /** A generation raises exactly when one of its nodes raised. */
  lemma {:induction false} RunNodesRaises(rs: Runners, gen: seq<Node>, s: Store)
    ensures RunNodes(rs, gen, s).1.None? <==> forall i :: 0 <= i < |gen| ==> OutcomeAt(rs, gen, s, i).Ok?
    decreases |gen|
  {
    if gen != [] {
      var n := |gen| - 1;
      var init := gen[..n];
      RunNodesRaises(rs, init, s);
      forall j | 0 <= j < n ensures OutcomeAt(rs, gen, s, j) == OutcomeAt(rs, init, s, j) {
        OutcomeAtPrefix(rs, gen, s, j);
      }
      var before := RunNodes(rs, init, s);
      assert OutcomeAt(rs, gen, s, n) == NodeOutcome(rs, gen[n], before.0.results);
    }
  }

  /**
   * The exception a generation raises is that of its first failing node:
   * a node execution error naming the first node whose dispatch raised,
   * every node before it having returned.
   */
  lemma {:induction false} RunNodesFirstFailure(rs: Runners, gen: seq<Node>, s: Store)
    ensures RunNodes(rs, gen, s).1.Some? ==>
      exists i :: 0 <= i < |gen| && OutcomeAt(rs, gen, s, i).Err?
        && (forall j :: 0 <= j < i ==> OutcomeAt(rs, gen, s, j).Ok?)
        && RunNodes(rs, gen, s).1 == Some(NodeExecution(gen[i].uniqueId, OutcomeAt(rs, gen, s, i).error))
    decreases |gen|
  {
    if gen != [] {
      var n := |gen| - 1;
      var init := gen[..n];
      var before := RunNodes(rs, init, s);
      var last := OutcomeAt(rs, gen, s, n);
      assert last == NodeOutcome(rs, gen[n], before.0.results);
      if before.1.Some? {
        RunNodesFirstFailure(rs, init, s);
        var i :| 0 <= i < |init| && OutcomeAt(rs, init, s, i).Err?
          && (forall j :: 0 <= j < i ==> OutcomeAt(rs, init, s, j).Ok?)
          && before.1 == Some(NodeExecution(init[i].uniqueId, OutcomeAt(rs, init, s, i).error));
        forall j | 0 <= j <= i ensures OutcomeAt(rs, gen, s, j) == OutcomeAt(rs, init, s, j) {
          OutcomeAtPrefix(rs, gen, s, j);
        }
      } else if last.Err? {
        RunNodesRaises(rs, init, s);
        forall j | 0 <= j < n ensures OutcomeAt(rs, gen, s, j) == OutcomeAt(rs, init, s, j) {
          OutcomeAtPrefix(rs, gen, s, j);
        }
      }
    }
  }

  // ---------------------------------------------------------------------------
  // The generations

  /**
   * The generations run one after the other from store `s`, each finishing
   * before the next starts; the first generation that raises ends the run
   * with its exception.
   */
  ghost function RunGenerations(rs: Runners, gens: seq<seq<Node>>, s: Store): (Store, Option<Error>)
    decreases |gens|
  {
    if gens == [] then (s, None)
    else
      var before := RunGenerations(rs, gens[..|gens| - 1], s);
      if before.1.Some? then before
      else RunNodes(rs, gens[|gens| - 1], before.0)
  }

  /**
   * A failing generation is the last to run: the run ends with that
   * generation's store and exception, every generation before it having
   * completed without one.
   */
  lemma {:induction false} FailingGenerationIsLast(rs: Runners, gens: seq<seq<Node>>, s: Store)
    ensures RunGenerations(rs, gens, s).1.Some? ==>
      exists i :: 0 <= i < |gens|
        && RunGenerations(rs, gens[..i], s).1.None?
        && RunGenerations(rs, gens, s)
           == RunNodes(rs, gens[i], RunGenerations(rs, gens[..i], s).0)
    decreases |gens|
  {
    if gens != [] {
      var n := |gens| - 1;
      var init := gens[..n];
      var before := RunGenerations(rs, init, s);
      assert RunGenerations(rs, gens, s) == if before.1.Some? then before else RunNodes(rs, gens[n], before.0);
      if before.1.Some? {
        FailingGenerationIsLast(rs, init, s);
        var i :| 0 <= i < |init|
          && RunGenerations(rs, init[..i], s).1.None?
          && before == RunNodes(rs, init[i], RunGenerations(rs, init[..i], s).0);
        assert gens[..i] == init[..i] && gens[i] == init[i];
      } else {
        assert RunGenerations(rs, gens[..n], s).1.None?;
      }
    }
  }

  /**
   * A run that raised nothing ran every node of every generation to a
   * stored result, and kept the earlier results.
   */
  lemma {:induction false} RunGenerationsStoresAll(rs: Runners, gens: seq<seq<Node>>, s: Store)
    requires RunGenerations(rs, gens, s).1.None?
    ensures s.results.Keys <= RunGenerations(rs, gens, s).0.results.Keys
    ensures StoreValid(s) ==> StoreValid(RunGenerations(rs, gens, s).0)
    ensures forall i, j :: 0 <= i < |gens| && 0 <= j < |gens[i]| ==>
      gens[i][j].uniqueId in RunGenerations(rs, gens, s).0.results
    decreases |gens|
  {
    if gens != [] {
      var n := |gens| - 1;
      var init := gens[..n];
      var before := RunGenerations(rs, init, s);
      RunGenerationsStoresAll(rs, init, s);
      var after := RunNodes(rs, gens[n], before.0);
      RunNodesGrows(rs, gens[n], before.0);
      RunNodesRaises(rs, gens[n], before.0);
      RunNodesStoresEvery(rs, gens[n], before.0);
      forall i, j | 0 <= i < |gens| && 0 <= j < |gens[i]|
        ensures gens[i][j].uniqueId in after.0.results
      {
        if i < n {
          assert gens[i] == init[i];
        }
      }
    }
  }

  // ---------------------------------------------------------------------------
  // The dry run of a manifest

  /**
   * `dry_run_manifest`: validates the manifest (its nodes in the order
   * `keys`), schedules every runnable node with no model filter, and runs
   * the generations in order into a new result store. `rank` witnesses
   * that the manifest's dependencies are acyclic; the scheduler needs it.
   * The ghost `ids` and `generations` are the scheduler's generations.
   */
  method DryRunManifest(manifest: Manifest, keys: seq<string>, ghost rank: map<string, nat>,
                        rs: Runners)
    returns (r: Result<Results>, ghost ids: seq<seq<string>>, ghost generations: seq<seq<Node>>)
    requires Distinct(keys) && forall k :: k in manifest.nodes <==> k in keys
    requires Ranked(manifest.nodes, rank)
    ensures NonSqlIds(manifest.nodes, keys) != [] ==> r == Err(ManifestValidation(NonSqlIds(manifest.nodes, keys)))
    ensures NonSqlIds(manifest.nodes, keys) == [] ==> ManifestGenerations(manifest, rank, ids, generations)
    ensures NonSqlIds(manifest.nodes, keys) == [] ==>
      var run := RunGenerations(rs, generations, Store(map[], []));
      && (run.1.Some? ==> r == Err(run.1.value))
      && (run.1.None? ==> r.Ok? && fresh(r.value) && r.value.Valid()
                          && Store(r.value.results, r.value.order) == run.0)
  {
    ids, generations := [], [];
    var invalid := ValidateManifestCompatibility(manifest, keys);
    if invalid.Some? {
      return Err(invalid.value), ids, generations;
    }
    var gens;
    gens, ids := Schedule(manifest, rank);
    generations := gens;
    var results := new Results();
    var failure := RunAllGenerations(rs, gens, results);
    if failure.Some? {
      return Err(failure.value), ids, generations;
    }
    return Ok(results), ids, generations;
  }

  /** `ids` are generations of the manifest's graph and `generations` their nodes. */
  ghost predicate ManifestGenerations(manifest: Manifest, rank: map<string, nat>, ids: seq<seq<string>>,
                                      generations: seq<seq<Node>>)
  {
    var g := Skeleton(manifest.nodes);
    && Ranked(g, rank) && DeepTable(g, rank, DeepMap(g, rank))
    && IsGenerations(g, rank, DeepMap(g, rank), RunnableIds(g), ids)
    && |generations| == |ids|
    && (forall i :: 0 <= i < |ids| ==> |generations[i]| == |ids[i]|)
    && (forall i, j :: 0 <= i < |ids| && 0 <= j < |ids[i]| ==> WithoutDeep(generations[i][j]) == g[ids[i][j]])
  }

  /** `ManifestScheduler(manifest)` iterated: every runnable node, in its generation. */
  method Schedule(manifest: Manifest, ghost rank: map<string, nat>)
    returns (gens: seq<seq<Node>>, ghost ids: seq<seq<string>>)
    requires Ranked(manifest.nodes, rank)
    ensures ManifestGenerations(manifest, rank, ids, gens)
    ensures forall i, j :: 0 <= i < |gens| && 0 <= j < |gens[i]| ==>
      gens[i][j].uniqueId in manifest.nodes && Runnable(gens[i][j])
      && WithoutDeep(gens[i][j]) == WithoutDeep(manifest.nodes[gens[i][j].uniqueId])
    ensures forall k :: k in manifest.nodes && Runnable(manifest.nodes[k]) ==>
      exists i, j :: 0 <= i < |gens| && 0 <= j < |gens[i]| && gens[i][j].uniqueId == k
  {
    ghost var g := Skeleton(manifest.nodes);
    var scheduler := new ManifestScheduler(manifest, None, rank);
    assert scheduler.graph == g && scheduler.rank == rank && scheduler.deep == DeepMap(g, rank);
    assert scheduler.modelFilter == None;
    assert ScheduledKeys(g, rank, None) == Ok(RunnableIds(g));
    var scheduled;
    scheduled, ids := scheduler.Iterate();
    gens := scheduled.value;
    assert Ranked(g, rank) && DeepTable(g, rank, DeepMap(g, rank));
    assert IsGenerations(g, rank, DeepMap(g, rank), RunnableIds(g), ids);
    assert ScheduledNodes(DeepMap(g, rank), RunnableIds(g), scheduler.nodes, ids, gens);
    SchedulerGenerations(g, scheduler.nodes, ids, gens);
    GenerationsAreRunnableNodes(manifest, rank, ids, gens);
  }

  /**
   * The scheduled nodes are the manifest's runnable nodes, each scheduled
   * with its manifest entry (up to its deep dependencies).
   */
  lemma GenerationsAreRunnableNodes(manifest: Manifest, rank: map<string, nat>, ids: seq<seq<string>>,
                                    gens: seq<seq<Node>>)
    requires Ranked(manifest.nodes, rank)
    requires ManifestGenerations(manifest, rank, ids, gens)
    ensures forall i, j :: 0 <= i < |gens| && 0 <= j < |gens[i]| ==>
      gens[i][j].uniqueId in manifest.nodes && Runnable(gens[i][j])
      && WithoutDeep(gens[i][j]) == WithoutDeep(manifest.nodes[gens[i][j].uniqueId])
    ensures forall k :: k in manifest.nodes && Runnable(manifest.nodes[k]) ==>
      exists i, j :: 0 <= i < |gens| && 0 <= j < |gens[i]| && gens[i][j].uniqueId == k
  {
    var g := Skeleton(manifest.nodes);
    var keys := RunnableIds(g);
    var depth := DepthMap(g, rank, DeepMap(g, rank), keys);
    forall i, j | 0 <= i < |gens| && 0 <= j < |gens[i]|
      ensures gens[i][j].uniqueId in manifest.nodes && Runnable(gens[i][j])
        && WithoutDeep(gens[i][j]) == WithoutDeep(manifest.nodes[gens[i][j].uniqueId])
    {
      var k := ids[i][j];
      assert k in ids[i];
      assert k in keys;
      assert WithoutDeep(gens[i][j]) == g[k] == WithoutDeep(manifest.nodes[k]);
      assert gens[i][j].uniqueId == g[k].uniqueId == k;
    }
    forall k | k in manifest.nodes && Runnable(manifest.nodes[k])
      ensures exists i, j :: 0 <= i < |gens| && 0 <= j < |gens[i]| && gens[i][j].uniqueId == k
    {
      assert g[k] == WithoutDeep(manifest.nodes[k]);
      assert k in keys;
      var i := depth[k];
      var j :| 0 <= j < |ids[i]| && ids[i][j] == k;
      assert gens[i][j].uniqueId == WithoutDeep(gens[i][j]).uniqueId == g[k].uniqueId == k;
    }
  }

  /** The loop over the generations: each runs in full; the first one that raises ends it. */
  method RunAllGenerations(rs: Runners, gens: seq<seq<Node>>, results: Results) returns (r: Option<Error>)
    requires results.Valid()
    modifies results
    ensures results.Valid()
    ensures (Store(results.results, results.order), r)
            == RunGenerations(rs, gens, Store(old(results.results), old(results.order)))
  {
    ghost var start := Store(results.results, results.order);
    for i := 0 to |gens|
      invariant results.Valid()
      invariant (Store(results.results, results.order), None) == RunGenerations(rs, gens[..i], start)
    {
      assert gens[..i + 1][..i] == gens[..i];
      var failure := RunGeneration(rs, gens[i], results);
      if failure.Some? {
        FailureEndsRun(rs, gens, i, start);
        return failure;
      }
    }
    assert gens[..|gens|] == gens;
    return None;
  }

  /** The scheduler's generations, read off its nodes, are those of the manifest's graph. */
  lemma SchedulerGenerations(g: map<string, Node>, nodes: map<string, Node>, ids: seq<seq<string>>, out: seq<seq<Node>>)
    requires SameGraph(nodes, g)
    requires |out| == |ids| && forall i :: 0 <= i < |ids| ==> |out[i]| == |ids[i]|
    requires forall i, j :: 0 <= i < |ids| && 0 <= j < |ids[i]| ==> ids[i][j] in nodes && out[i][j] == nodes[ids[i][j]]
    ensures forall i, j :: 0 <= i < |ids| && 0 <= j < |ids[i]| ==> WithoutDeep(out[i][j]) == g[ids[i][j]]
  {
  }

  /** A generation that raises ends the run with its exception, whatever follows it. */
  lemma {:induction false} FailureEndsRun(rs: Runners, gens: seq<seq<Node>>, i: nat, s: Store)
    requires i < |gens|
    requires RunGenerations(rs, gens[..i], s).1.None?
    requires RunGenerations(rs, gens[..i + 1], s).1.Some?
    ensures RunGenerations(rs, gens, s)
            == RunGenerations(rs, gens[..i + 1], s)
    decreases |gens|
  {
    if |gens| > i + 1 {
      var init := gens[..|gens| - 1];
      assert init[..i] == gens[..i] && init[..i + 1] == gens[..i + 1];
      FailureEndsRun(rs, init, i, s);
    } else {
      assert gens[..i + 1] == gens;
    }
  }

  /**
   * A dry run that raised nothing stored a result for every runnable node
   * of the manifest: each is in exactly one generation, and each node of a
   * generation is run.
   */
  lemma RunnableNodesAllStored(manifest: Manifest, rank: map<string, nat>, ids: seq<seq<string>>,
                               generations: seq<seq<Node>>, rs: Runners)
    requires Ranked(manifest.nodes, rank)
    requires ManifestGenerations(manifest, rank, ids, generations)
    requires RunGenerations(rs, generations, Store(map[], [])).1.None?
    ensures forall k :: k in manifest.nodes && Runnable(manifest.nodes[k]) ==>
      k in RunGenerations(rs, generations, Store(map[], [])).0.results
  {
    var g := Skeleton(manifest.nodes);
    var keys := RunnableIds(g);
    var depth := DepthMap(g, rank, DeepMap(g, rank), keys);
    RunGenerationsStoresAll(rs, generations, Store(map[], []));
    forall k | k in manifest.nodes && Runnable(manifest.nodes[k])
      ensures k in RunGenerations(rs, generations, Store(map[], [])).0.results
    {
      assert g[k] == WithoutDeep(manifest.nodes[k]);
      assert k in keys;
      var i := depth[k];
      var j :| 0 <= j < |ids[i]| && ids[i][j] == k;
      assert generations[i][j].uniqueId == WithoutDeep(generations[i][j]).uniqueId == g[k].uniqueId == k;
    }
  }
}
