/**
 * `Snaql.load_queries`: one generator per registered block over a deep
 * copy of the scratch state, which is cleared afterwards.
 */
module Factory {
  import opened Wrappers
  import opened Registry
  import opened Generator
  import opened Extension

  /** The compiler object: it owns the environment and so its scratch state. */
  class Snaql {
    const sqlParams: SqlParams

    constructor ()
      ensures fresh(sqlParams)
      ensures sqlParams.raws == None && sqlParams.funcs == None
    {
      sqlParams := new SqlParams();
    }

    /**
     * Builds the generators once the template has been parsed and
     * rendered. Keys are visited in an unspecified order, as a dictionary's
     * are; the first block whose entry lacks `note` or `is_cond` aborts
     * the build, and then nothing is cleared.
     */
    method LoadQueries() returns (r: Result<map<string, Gen>, Error>)
      modifies sqlParams
      ensures old(sqlParams.funcs).None? ==>
                r == Failure(KeyError("funcs"))
                && sqlParams.raws == old(sqlParams.raws) && sqlParams.funcs == None
      ensures old(sqlParams.funcs).Some? ==>
                var meta := old(sqlParams.funcs).value;
                && (r.Success? <==> forall n :: n in meta ==> GenFunc(n, meta).Success?)
                && (r.Success? ==>
                      && r.value.Keys == meta.Keys
                      && (forall n :: n in r.value ==> GenFunc(n, meta) == Success(r.value[n]))
                      && sqlParams.raws == None && sqlParams.funcs == None)
                && (r.Failure? ==>
                      && (exists n :: n in meta && GenFunc(n, meta) == Failure(r.error))
                      && sqlParams.raws == old(sqlParams.raws)
                      && sqlParams.funcs == old(sqlParams.funcs))
    {
      if sqlParams.funcs.None? {
        return Failure(KeyError("funcs"));
      }
      var meta := sqlParams.funcs.value;
      var factory: map<string, Gen> := map[];
      var todo := meta.Keys;
      while todo != {}
        invariant todo <= meta.Keys
        invariant factory.Keys == meta.Keys - todo
        invariant forall n :: n in factory ==> GenFunc(n, meta) == Success(factory[n])
        decreases todo
      {
        var n :| n in todo;
        var g := GenFunc(n, meta);
        if g.Failure? {
          return Failure(g.error);
        }
        factory := factory[n := g.value];
        todo := todo - {n};
      }
      sqlParams.raws := None;
      sqlParams.funcs := None;
      r := Success(factory);
    }
  }
}
