/**
 * The reporter that turns the results of a dry run into the process exit
 * code: 1 when some node that is not excluded did not succeed, 0 otherwise.
 */
module ResultReporting {
  import opened DryRunResults
  import opened ResultStore

  /** A failure as the reporter lists it: the result, and whether its node is excluded. */
  type Failure = (DryRunResult, bool)

  /** The failures among `rs`, in order, each marked excluded or not. */
  function Failures(rs: seq<DryRunResult>, exclude: set<string>): seq<Failure>
  {
    if rs == [] then []
    else
      var last := rs[|rs| - 1];
      Failures(rs[..|rs| - 1], exclude) +
      if last.status != DryRunStatus.SUCCESS then [(last, last.node.uniqueId in exclude)] else []
  }

  /** The failures that are not excluded. */
  function Included(fs: seq<Failure>): seq<Failure>
  {
    if fs == [] then []
    else Included(fs[..|fs| - 1]) + if !fs[|fs| - 1].1 then [fs[|fs| - 1]] else []
  }

  /** A result that counts against the run: not SUCCESS, and not excluded. */
  predicate CountsAsFailure(r: DryRunResult, exclude: set<string>)
  {
    r.status != DryRunStatus.SUCCESS && r.node.uniqueId !in exclude
  }

  /**
   * The exit code `report_and_check_results` returns: 1 exactly when some
   * result is not SUCCESS and its node is not excluded.
   */
  function ExitCode(rs: seq<DryRunResult>, exclude: set<string>): (code: int)
    ensures code == 0 || code == 1
    ensures code == 1 <==> AnyCounts(rs, exclude)
  {
    IncludedFailures(rs, exclude);
    if |Included(Failures(rs, exclude))| > 0 then 1 else 0
  }

  lemma IncludedAppend(fs: seq<Failure>, f: Failure)
    ensures Included(fs + [f]) == Included(fs) + if !f.1 then [f] else []
  {
    assert (fs + [f])[..|fs|] == fs;
  }

  /** Some result counts as a failure. */
  predicate AnyCounts(rs: seq<DryRunResult>, exclude: set<string>)
  {
    exists i :: 0 <= i < |rs| && CountsAsFailure(rs[i], exclude)
  }

  /** Some failure is not excluded exactly when a result counts as a failure. */
  lemma {:induction false} IncludedFailures(rs: seq<DryRunResult>, exclude: set<string>)
    ensures |Included(Failures(rs, exclude))| > 0 <==> AnyCounts(rs, exclude)
  {
    if rs != [] {
      var init := rs[..|rs| - 1];
      var last := rs[|rs| - 1];
      IncludedFailures(init, exclude);
      if last.status != DryRunStatus.SUCCESS {
        var f := (last, last.node.uniqueId in exclude);
        assert Failures(rs, exclude) == Failures(init, exclude) + [f];
        IncludedAppend(Failures(init, exclude), f);
      } else {
        assert Failures(rs, exclude) == Failures(init, exclude);
      }
      CountsSnoc(rs, exclude);
    }
  }

  lemma CountsSnoc(rs: seq<DryRunResult>, exclude: set<string>)
    requires rs != []
    ensures AnyCounts(rs, exclude) <==> AnyCounts(rs[..|rs| - 1], exclude) || CountsAsFailure(rs[|rs| - 1], exclude)
  {
    var init := rs[..|rs| - 1];
    if AnyCounts(rs, exclude) {
      var i :| 0 <= i < |rs| && CountsAsFailure(rs[i], exclude);
      if i < |init| {
        assert init[i] == rs[i];
      }
    }
    if AnyCounts(init, exclude) {
      var i :| 0 <= i < |init| && CountsAsFailure(init[i], exclude);
      assert init[i] == rs[i];
    }
  }

  class ResultReporter {
    const results: Results
    const exclude: set<string>

    constructor (results: Results, exclude: set<string>)
      ensures this.results == results && this.exclude == exclude
    {
      this.results := results;
      this.exclude := exclude;
    }

    /**
     * `report_and_check_results`: collects the failures in the store's order,
     * marks the excluded ones, and returns 1 if any failure is not excluded.
     * The store is only read.
     */
    method ReportAndCheckResults() returns (code: int)
      requires results.Valid()
      ensures code == ExitCode(results.InOrder(), exclude)
      ensures code == 1 <==> exists k :: k in results.results && CountsAsFailure(results.results[k], exclude)
    {
      var values := results.Values();
      var failures: seq<Failure> := [];
      for i := 0 to |values|
        invariant failures == Failures(values[..i], exclude)
      {
        var result := values[i];
        assert values[..i + 1][..i] == values[..i];
        if result.status != DryRunStatus.SUCCESS {
          failures := failures + [(result, result.node.uniqueId in exclude)];
        }
      }
      assert values[..|values|] == values;
      var includedFailures: seq<Failure> := [];
      for i := 0 to |failures|
        invariant includedFailures == Included(failures[..i])
      {
        assert failures[..i + 1][..i] == failures[..i];
        if !failures[i].1 {
          includedFailures := includedFailures + [failures[i]];
        }
      }
      assert failures[..|failures|] == failures;
      code := if |includedFailures| > 0 then 1 else 0;
      AnyCountsByKey(results.results, results.order, values, exclude);
    }
  }

  /** Over the values of a store, some result counts as a failure exactly when some stored one does. */
  lemma AnyCountsByKey(m: map<string, DryRunResult>, order: seq<string>, vs: seq<DryRunResult>, exclude: set<string>)
    requires forall k :: k in m <==> k in order
    requires |vs| == |order| && forall i :: 0 <= i < |vs| ==> vs[i] == m[order[i]]
    ensures AnyCounts(vs, exclude) <==> exists k :: k in m && CountsAsFailure(m[k], exclude)
  {
    if exists k :: k in m && CountsAsFailure(m[k], exclude) {
      var k :| k in m && CountsAsFailure(m[k], exclude);
      var i :| 0 <= i < |order| && order[i] == k;
      assert CountsAsFailure(vs[i], exclude);
    }
  }

  // ---------------------------------------------------------------------------
  // Properties of the exit code

  /** Whatever excluded nodes report, the exit code is the same. */
  lemma ExcludedFailuresIgnored(rs: seq<DryRunResult>, rs': seq<DryRunResult>, exclude: set<string>)
    requires |rs| == |rs'|
    requires forall i :: 0 <= i < |rs| ==>
      rs[i] == rs'[i] || (rs[i].node.uniqueId in exclude && rs'[i].node.uniqueId in exclude)
    ensures ExitCode(rs, exclude) == ExitCode(rs', exclude)
  {
    if exists i :: 0 <= i < |rs| && CountsAsFailure(rs[i], exclude) {
      var i :| 0 <= i < |rs| && CountsAsFailure(rs[i], exclude);
      assert CountsAsFailure(rs'[i], exclude);
    }
    if exists i :: 0 <= i < |rs'| && CountsAsFailure(rs'[i], exclude) {
      var i :| 0 <= i < |rs'| && CountsAsFailure(rs'[i], exclude);
      assert CountsAsFailure(rs[i], exclude);
    }
  }

  /** Any status other than SUCCESS fails the run, SKIPPED included. */
  lemma SkippedCounts(rs: seq<DryRunResult>, r: DryRunResult, exclude: set<string>)
    requires r in rs && r.status == DryRunStatus.SKIPPED && r.node.uniqueId !in exclude
    ensures ExitCode(rs, exclude) == 1
  {
    var i :| 0 <= i < |rs| && rs[i] == r;
    assert CountsAsFailure(rs[i], exclude);
  }

  /** No results, or only successful ones, give exit code 0. */
  lemma AllSuccessExitsZero(rs: seq<DryRunResult>, exclude: set<string>)
    requires forall i :: 0 <= i < |rs| ==> rs[i].status == DryRunStatus.SUCCESS
    ensures ExitCode(rs, exclude) == 0
  {
  }
}
