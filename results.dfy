/** The store of results by node id that the runners read and the executor fills. */
module ResultStore {
  import opened Exceptions
  import opened DryRunResults
  import opened Seqs

  class Results {
    /** The results by node id. */
    var results: map<string, DryRunResult>
    /** The ids in the order they were first added (the dict's iteration order). */
    var order: seq<string>

    ghost predicate Valid()
      reads this
    {
      Distinct(order) && forall k :: k in results <==> k in order
    }

    /** A new store holds no results. */
    constructor ()
      ensures Valid() && results == map[] && order == []
    {
      results := map[];
      order := [];
    }

    /**
     * `add_result`: stores `result` under `key`, overwriting an earlier result
     * for that key; every other entry is unchanged.
     */
    method AddResult(key: string, result: DryRunResult)
      requires Valid()
      modifies this
      ensures Valid()
      ensures results == old(results)[key := result]
      ensures order == if key in old(results) then old(order) else old(order) + [key]
    {
      if key !in results {
        order := order + [key];
      }
      results := results[key := result];
    }

    /** `get_result`: the stored result, or KeyError for an id that has none. */
    method GetResult(key: string) returns (r: Result<DryRunResult>)
      ensures key in results ==> r == Ok(results[key])
      ensures key !in results ==> r == Err(KeyError(key))
    {
      if key in results {
        r := Ok(results[key]);
      } else {
        r := Err(KeyError(key));
      }
    }

    /** `keys`: the ids that have a result. */
    method Keys() returns (ks: set<string>)
      ensures ks == results.Keys
    {
      ks := results.Keys;
    }

    /** The stored results in insertion order. */
    ghost function InOrder(): (vs: seq<DryRunResult>)
      reads this
      requires Valid()
      ensures |vs| == |order|
      ensures forall i :: 0 <= i < |vs| ==> vs[i] == results[order[i]]
    {
      seq(|order|, i requires 0 <= i < |order| && order[i] in results reads this => results[order[i]])
    }

    /** `values`: one result per id, in insertion order, as many as there are ids. */
    method Values() returns (vs: seq<DryRunResult>)
      requires Valid()
      ensures |vs| == |order| == |results.Keys|
      ensures forall i :: 0 <= i < |vs| ==> vs[i] == results[order[i]]
      ensures vs == InOrder()
    {
      vs := [];
      var i := 0;
      while i < |order|
        invariant 0 <= i <= |order|
        invariant |vs| == i
        invariant forall j :: 0 <= j < i ==> vs[j] == results[order[j]]
      {
        vs := vs + [results[order[i]]];
        i := i + 1;
      }
      DistinctCardinality(order);
      assert results.Keys == set k | k in order;
    }
  }
}
