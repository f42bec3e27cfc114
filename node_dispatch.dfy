/**
 * Choosing the runner for a node: the registry of runners by resource type
 * and materialization, the check a runner makes before it runs, and the
 * delegation that returns that check's result instead of running when there
 * is one.
 */
module NodeDispatch {
  import opened Wrappers
  import opened Exceptions
  import opened Manifest
  import opened DryRunResults

  /** `RunnerKey`: a resource type and, for all but sources, a materialization. */
  datatype RunnerKey = RunnerKey(resourceType: string, materialized: Option<string>)

  /** The runner classes of the registry. */
  datatype RunnerKind =
    | IncrementalKind
    | TableKind
    | ViewKind
    | TestKind
    | SnapshotKind
    | SeedKind
    | SourceKind

  /** `RUNNERS`: the registry; a source is keyed without a materialization. */
  const Runners: map<RunnerKey, RunnerKind> := map[
    RunnerKey("model", Some("incremental")) := IncrementalKind,
    RunnerKey("model", Some("table")) := TableKind,
    RunnerKey("model", Some("view")) := ViewKind,
    RunnerKey("test", Some("test")) := TestKind,
    RunnerKey("snapshot", Some("snapshot")) := SnapshotKind,
    RunnerKey("seed", Some("seed")) := SeedKind,
    RunnerKey("source", None) := SourceKind]

  /** `_get_node_runner_key`. */
  function KeyOf(node: Node): (k: RunnerKey)
    ensures k.resourceType == node.resourceType && k.materialized == node.config.materialized
  {
    RunnerKey(node.resourceType, node.config.materialized)
  }

  /**
   * The check a runner makes before running. A node that was not compiled
   * is a FAILURE with a not-compiled exception, or SKIPPED without one when
   * the skip-not-compiled flag is set; seeds and sources are never rejected.
   */
  function ValidateNode(kind: RunnerKind, node: Node, skipNotCompiled: bool): (r: Option<DryRunResult>)
    ensures r.Some? <==> !node.compiled && kind != SeedKind && kind != SourceKind
    ensures r.Some? ==> r.value.node == node && r.value.table.None?
    ensures r.Some? && skipNotCompiled ==>
      r.value.status == DryRunStatus.SKIPPED && r.value.exception.None?
    ensures r.Some? && !skipNotCompiled ==>
      r.value.status == DryRunStatus.FAILURE && r.value.exception == Some(NotCompiled(node.uniqueId))
  {
    if kind == SeedKind || kind == SourceKind || node.compiled then None
    else if skipNotCompiled then Some(NewResult(node, None, DryRunStatus.SKIPPED, None))
    else Some(NewResult(node, None, DryRunStatus.FAILURE, Some(NotCompiled(node.uniqueId))))
  }

  /** A validation result is returned as it is; only without one does the runner run. */
  function ValidateThenRun(kind: RunnerKind, node: Node, skipNotCompiled: bool,
                           run: RunnerKind -> Result<DryRunResult>): Result<DryRunResult>
  {
    match ValidateNode(kind, node, skipNotCompiled)
    case Some(v) => Ok(v)
    case None => run(kind)
  }

  /**
   * `node_dispatch.dispatch_node`: the runner registered under the node's key
   * validates and then runs it; an unregistered key is a value error. `run`
   * stands for the runners' `run` on this node.
   */
  function DispatchNode(node: Node, skipNotCompiled: bool, run: RunnerKind -> Result<DryRunResult>)
    : (r: Result<DryRunResult>)
    ensures KeyOf(node) !in Runners ==> r == Err(ValueError(node.resourceType))
    ensures KeyOf(node) in Runners ==> r == ValidateThenRun(Runners[KeyOf(node)], node, skipNotCompiled, run)
  {
    var key := KeyOf(node);
    if key !in Runners then Err(ValueError(node.resourceType))
    else ValidateThenRun(Runners[key], node, skipNotCompiled, run)
  }

  /**
   * `execution.dispatch_node`: the runner is looked up by resource type alone
   * in the given map (built by `get_runner_map`, which is not part of this
   * model); an unknown type is a value error.
   */
  function DispatchByType(node: Node, runners: map<string, RunnerKind>, skipNotCompiled: bool,
                          run: RunnerKind -> Result<DryRunResult>): (r: Result<DryRunResult>)
    ensures node.resourceType !in runners ==> r == Err(ValueError(node.resourceType))
    ensures node.resourceType in runners ==>
      r == ValidateThenRun(runners[node.resourceType], node, skipNotCompiled, run)
  {
    if node.resourceType !in runners then Err(ValueError(node.resourceType))
    else ValidateThenRun(runners[node.resourceType], node, skipNotCompiled, run)
  }

  // ---------------------------------------------------------------------------
  // Properties of dispatch

  /** The registry holds exactly seven keys. */
  lemma RunnersKeys()
    ensures Runners.Keys == {
      RunnerKey("model", Some("incremental")), RunnerKey("model", Some("table")),
      RunnerKey("model", Some("view")), RunnerKey("test", Some("test")),
      RunnerKey("snapshot", Some("snapshot")), RunnerKey("seed", Some("seed")),
      RunnerKey("source", None)}
    ensures |Runners| == 7
  {
  }

  /**
   * The runner a node gets: a model by its materialization, a test, snapshot
   * or seed only when materialized as such, and a source only without a
   * materialization.
   */
  lemma RunnerOfNode(node: Node)
    ensures KeyOf(node) in Runners && Runners[KeyOf(node)] == SourceKind <==>
      node.resourceType == "source" && node.config.materialized.None?
    ensures KeyOf(node) in Runners && Runners[KeyOf(node)] == IncrementalKind <==>
      node.resourceType == "model" && node.config.materialized == Some("incremental")
    ensures KeyOf(node) in Runners && Runners[KeyOf(node)] == SeedKind <==>
      node.resourceType == "seed" && node.config.materialized == Some("seed")
    ensures KeyOf(node) in Runners ==>
      node.resourceType in {"model", "test", "snapshot", "seed", "source"}
    ensures node.resourceType == "model" && node.config.materialized == Some("ephemeral") ==>
      KeyOf(node) !in Runners
  {
    SourceRunnerOf(node);
    IncrementalRunnerOf(node);
    SeedRunnerOf(node);
    KnownResourceTypes(node);
  }

  lemma SourceRunnerOf(node: Node)
    ensures KeyOf(node) in Runners && Runners[KeyOf(node)] == SourceKind <==>
      node.resourceType == "source" && node.config.materialized.None?
  {
    RunnersKeys();
  }

  lemma IncrementalRunnerOf(node: Node)
    ensures KeyOf(node) in Runners && Runners[KeyOf(node)] == IncrementalKind <==>
      node.resourceType == "model" && node.config.materialized == Some("incremental")
  {
    RunnersKeys();
  }

  lemma SeedRunnerOf(node: Node)
    ensures KeyOf(node) in Runners && Runners[KeyOf(node)] == SeedKind <==>
      node.resourceType == "seed" && node.config.materialized == Some("seed")
  {
    RunnersKeys();
  }

  lemma KnownResourceTypes(node: Node)
    ensures KeyOf(node) in Runners ==>
      node.resourceType in {"model", "test", "snapshot", "seed", "source"}
    ensures node.resourceType == "model" && node.config.materialized == Some("ephemeral") ==>
      KeyOf(node) !in Runners
  {
    RunnersKeys();
    var k := KeyOf(node);
    if k in Runners {
      assert k.resourceType in {"model", "test", "snapshot", "seed", "source"};
    }
  }

  /** An unknown key fails before any runner is asked: neither validation nor run matters. */
  lemma UnknownKeyCallsNothing(node: Node, skip1: bool, skip2: bool,
                               run1: RunnerKind -> Result<DryRunResult>, run2: RunnerKind -> Result<DryRunResult>)
    requires KeyOf(node) !in Runners
    ensures DispatchNode(node, skip1, run1) == DispatchNode(node, skip2, run2)
    ensures DispatchNode(node, skip1, run1).Err? && IsValueError(DispatchNode(node, skip1, run1).error)
  {
  }

  /** A validation result short-circuits: what `run` would return does not matter. */
  lemma ValidationShortCircuits(node: Node, skip: bool,
                                run1: RunnerKind -> Result<DryRunResult>, run2: RunnerKind -> Result<DryRunResult>)
    requires KeyOf(node) in Runners && ValidateNode(Runners[KeyOf(node)], node, skip).Some?
    ensures DispatchNode(node, skip, run1) == DispatchNode(node, skip, run2)
            == Ok(ValidateNode(Runners[KeyOf(node)], node, skip).value)
  {
  }

  /** A compiled node, a seed and a source always reach their runner's `run`. */
  lemma CompiledNodesRun(node: Node, skip: bool, run: RunnerKind -> Result<DryRunResult>)
    requires KeyOf(node) in Runners
    requires node.compiled || node.resourceType == "seed" || node.resourceType == "source"
    ensures DispatchNode(node, skip, run) == run(Runners[KeyOf(node)])
  {
    RunnersKeys();
  }

  /** Both dispatchers agree wherever the resource type picks the same runner as the full key. */
  lemma DispatchersAgree(node: Node, runners: map<string, RunnerKind>, skip: bool,
                         run: RunnerKind -> Result<DryRunResult>)
    requires KeyOf(node) in Runners && node.resourceType in runners
    requires runners[node.resourceType] == Runners[KeyOf(node)]
    ensures DispatchByType(node, runners, skip, run) == DispatchNode(node, skip, run)
  {
  }
}
