/**
 * The generator protocol (`Snaql.gen_func` and the `fn` closure it
 * returns). A generator reads only its deep-copied registry snapshot.
 * Template rendering is a function-valued parameter, and so is
 * `escape_string`.
 */
module Generator {
  import opened Wrappers
  import opened Text
  import opened Registry

  /** The plain keyword values the model distinguishes by truthiness. */
  datatype Scalar =
    | TextVal(s: string)
    | IntVal(n: int)
    | BoolVal(b: bool)
    | NoneVal
    | ObjectVal(truthy: bool)   // any other object, with its `bool()`: a date,
                                //   a non-conditional generator, `0.0`, `Decimal(0)`, ...

  /**
   * A keyword value: a plain value; a generator whose `is_cond` flag is
   * set, known by its block name; any other callable, which has no
   * `is_cond` attribute at all; or a non-string iterable of values.
   */
  datatype Value =
    | Plain(v: Scalar)
    | CondRef(name: string)
    | OtherCallable
    | Seq(items: seq<Value>)

  /** Python truthiness (a generator is a function, hence truthy). */
  predicate Truthy(x: Value)
    ensures x.CondRef? || x.OtherCallable? ==> Truthy(x)
    ensures x.Seq? ==> (Truthy(x) <==> x.items != [])
    ensures x.Plain? && x.v.NoneVal? ==> !Truthy(x)
    ensures x.Plain? && x.v.TextVal? ==> (Truthy(x) <==> x.v.s != [])
    ensures x.Plain? && x.v.IntVal? ==> (Truthy(x) <==> x.v.n != 0)
  {
    match x
    case Plain(TextVal(s)) => s != []
    case Plain(IntVal(n)) => n != 0
    case Plain(BoolVal(b)) => b
    case Plain(NoneVal) => false
    case Plain(ObjectVal(t)) => t
    case CondRef(_) => true
    case OtherCallable => true
    case Seq(items) => items != []
  }

  /** A keyword map, in the order its items are visited. */
  type Context = seq<(string, Value)>

  /** `render(template_source, **context)`, which may raise. */
  type Renderer = (string, Context) -> Result<string, Error>

  /** The record a generator function carries: its name, docstring and
      `is_cond` flag, and the snapshot its closure reads. */
  datatype Gen = Gen(name: string, doc: Option<string>, isCond: bool, meta: Funcs)

  predicate DistinctKeys(ctx: Context) {
    forall a, b :: 0 <= a < b < |ctx| ==> ctx[a].0 != ctx[b].0
  }

  predicate SameKeys(ctx: Context, other: Context) {
    |ctx| == |other| && forall j :: 0 <= j < |ctx| ==> ctx[j].0 == other[j].0
  }

  /** `ctx[k]`, or None when `k` is not a key. */
  function Lookup(ctx: Context, k: string): Option<Value> {
    if ctx == [] then None
    else if ctx[0].0 == k then Some(ctx[0].1)
    else Lookup(ctx[1..], k)
  }

  /** `ctx[k] = v`: the key keeps its place; a new key goes to the end. */
  function Assign(ctx: Context, k: string, v: Value): (r: Context)
    ensures Lookup(r, k) == Some(v)
    ensures forall k' :: k' != k ==> Lookup(r, k') == Lookup(ctx, k')
    ensures Lookup(ctx, k).Some? ==> SameKeys(r, ctx)
  {
    if ctx == [] then [(k, v)]
    else if ctx[0].0 == k then [(k, v)] + ctx[1..]
    else [ctx[0]] + Assign(ctx[1..], k, v)
  }

  lemma {:induction false} AssignAt(ctx: Context, i: nat, v: Value)
    requires DistinctKeys(ctx) && i < |ctx|
    ensures Assign(ctx, ctx[i].0, v) == ctx[i := (ctx[i].0, v)]
  {
    if i > 0 {
      assert ctx[0].0 != ctx[i].0;
      assert ctx[1..][i - 1] == ctx[i];
      AssignAt(ctx[1..], i - 1, v);
      assert [ctx[0]] + ctx[1..][i - 1 := (ctx[i].0, v)] == ctx[i := (ctx[i].0, v)];
    }
  }

  /** Block `c` is registered as a conditional of `owner` and has a source. */
  predicate Owned(meta: Funcs, c: string, owner: string) {
    c in meta && meta[c].condFor == Some(owner) && meta[c].rawSql.Some?
  }

  /** The stripped rendering of block `c`'s raw source with the keyword
      map `ctx`, or the renderer's error. */
  function RenderCond(meta: Funcs, c: string, ctx: Context, render: Renderer): Result<string, Error>
    requires c in meta && meta[c].rawSql.Some?
  {
    var out :- render(meta[c].rawSql.value, ctx);
    Success(Strip(out))
  }

  /**
   * `subrender_cond`: a conditional is checked against the owner and
   * rendered with the current keyword map; a callable without `is_cond`
   * fails on the attribute; anything else is returned as is.
   */
  function SubrenderCond(owner: string, x: Value, ctx: Context, meta: Funcs, render: Renderer)
    : (r: Result<Value, Error>)
    ensures !x.CondRef? && !x.OtherCallable? ==> r == Success(x)
    ensures x.OtherCallable? ==> r == Failure(AttributeError("is_cond"))
    ensures x.CondRef? && r.Success? ==> Owned(meta, x.name, owner)
    ensures x.CondRef? && Owned(meta, x.name, owner) ==>
              var o := render(meta[x.name].rawSql.value, ctx);
              r == if o.Success? then Success(Plain(TextVal(Strip(o.value)))) else Failure(o.error)
    ensures x.CondRef? && x.name in meta && meta[x.name].condFor.Some?
            && meta[x.name].condFor.value != owner ==>
              r == Failure(NotProperCondition(x.name, owner))
  {
    match x
    case CondRef(c) =>
      if c !in meta then Failure(KeyError(c))
      else if meta[c].condFor.None? then Failure(KeyError("cond_for"))
      else if meta[c].condFor.value != owner then Failure(NotProperCondition(c, owner))
      else if meta[c].rawSql.None? then Failure(KeyError("raw_sql"))
      else
        var out :- render(meta[c].rawSql.value, ctx);
        Success(Plain(TextVal(Strip(out))))
    case OtherCallable => Failure(AttributeError("is_cond"))
    case _ => Success(x)
  }

  /**
   * How one element of a sequence argument comes out of resolution with
   * the keyword map `ctx`: a conditional of `owner` becomes its stripped
   * rendering, a callable without `is_cond` cannot succeed, anything else
   * is kept.
   */
  predicate ElemResolved(meta: Funcs, owner: string, ctx: Context, render: Renderer, x: Value, y: Value) {
    match x
    case CondRef(c) =>
      Owned(meta, c, owner) && RenderCond(meta, c, ctx, render).Success?
      && y == Plain(TextVal(RenderCond(meta, c, ctx, render).value))
    case OtherCallable => false
    case _ => y == x
  }

  /** Resolves every element of a sequence argument, in order, with the same
      keyword map; the first failing element ends it. */
  function SubrenderEach(owner: string, xs: seq<Value>, ctx: Context, meta: Funcs, render: Renderer)
    : (r: Result<seq<Value>, Error>)
    ensures r.Success? <==> forall j :: 0 <= j < |xs| ==> SubrenderCond(owner, xs[j], ctx, meta, render).Success?
    ensures r.Success? ==>
              |r.value| == |xs|
              && forall j :: 0 <= j < |xs| ==> ElemResolved(meta, owner, ctx, render, xs[j], r.value[j])
  {
    if xs == [] then Success([])
    else
      var y :- SubrenderCond(owner, xs[0], ctx, meta, render);
      var ys :- SubrenderEach(owner, xs[1..], ctx, meta, render);
      Success([y] + ys)
  }

  /** The truthy elements of a sequence, in order. */
  function FilterTruthy(xs: seq<Value>): (r: seq<Value>)
    ensures |r| <= |xs|
    ensures forall j :: 0 <= j < |r| ==> Truthy(r[j])
    ensures forall y :: y in r ==> y in xs
  {
    if xs == [] then []
    else if Truthy(xs[0]) then [xs[0]] + FilterTruthy(xs[1..])
    else FilterTruthy(xs[1..])
  }

  /** Filtering keeps the order: it distributes over concatenation. */
  lemma {:induction false} FilterAppend(a: seq<Value>, b: seq<Value>)
    ensures FilterTruthy(a + b) == FilterTruthy(a) + FilterTruthy(b)
  {
    if a != [] {
      assert (a + b)[1..] == a[1..] + b;
      FilterAppend(a[1..], b);
    } else {
      assert a + b == b;
    }
  }

  /** A sequence with no falsy element is left as it is. */
  lemma {:induction false} FilterKeepsTruthy(xs: seq<Value>)
    requires forall j :: 0 <= j < |xs| ==> Truthy(xs[j])
    ensures FilterTruthy(xs) == xs
  {
    if xs != [] {
      FilterKeepsTruthy(xs[1..]);
    }
  }

  /** Writing the value a key already has changes nothing. */
  lemma {:induction false} AssignSame(ctx: Context, k: string, v: Value)
    requires Lookup(ctx, k) == Some(v)
    ensures Assign(ctx, k, v) == ctx
  {
    if ctx[0].0 != k {
      AssignSame(ctx[1..], k, v);
      assert [ctx[0]] + ctx[1..] == ctx;
    } else {
      assert [(k, v)] + ctx[1..] == ctx;
    }
  }

  /** In a map with distinct keys, key `ctx[j].0` holds `ctx[j].1`. */
  lemma {:induction false} LookupDistinct(ctx: Context, j: nat)
    requires DistinctKeys(ctx) && j < |ctx|
    ensures Lookup(ctx, ctx[j].0) == Some(ctx[j].1)
  {
    if j > 0 {
      assert ctx[0].0 != ctx[j].0;
      assert ctx[1..][j - 1] == ctx[j];
      LookupDistinct(ctx[1..], j - 1);
    }
  }

  /** Key `ctx[j].0` is present in `ctx`. */
  lemma {:induction false} LookupAt(ctx: Context, j: nat)
    requires j < |ctx|
    ensures Lookup(ctx, ctx[j].0).Some?
  {
    if j > 0 && ctx[0].0 != ctx[j].0 {
      assert ctx[1..][j - 1] == ctx[j];
      LookupAt(ctx[1..], j - 1);
    }
  }

  /**
   * One iteration of the keyword loop in `fn`: `x` is the value the item
   * list held for `point`; `ctx` is the keyword map as rewritten so far.
   * Only `point` is written, and an existing key keeps its place; an
   * error of `subrender_cond` ends the loop.
   */
  function ResolveOne(owner: string, point: string, x: Value, ctx: Context, meta: Funcs, render: Renderer)
    : (r: Result<Context, Error>)
    ensures r.Success? ==> forall k :: k != point ==> Lookup(r.value, k) == Lookup(ctx, k)
    ensures r.Success? && Lookup(ctx, point).Some? ==> SameKeys(r.value, ctx)
    ensures SubrenderCond(owner, x, ctx, meta, render).Failure? ==>
              r == Failure(SubrenderCond(owner, x, ctx, meta, render).error)
  {
    var maybe :- SubrenderCond(owner, x, ctx, meta, render);
    var ctx1 := if Truthy(maybe) then Assign(ctx, point, maybe) else ctx;
    if x.Seq? then
      var ys :- SubrenderEach(owner, x.items, ctx1, meta, render);
      Success(Assign(ctx1, point, Seq(FilterTruthy(ys))))
    else
      Success(ctx1)
  }

  /** The keyword loop from item `i` on; the keys keep their places. */
  function ResolveFrom(owner: string, kwargs: Context, i: nat, ctx: Context, meta: Funcs, render: Renderer)
    : (r: Result<Context, Error>)
    requires i <= |kwargs|
    ensures SameKeys(ctx, kwargs) && r.Success? ==> SameKeys(r.value, kwargs)
    decreases |kwargs| - i
  {
    if i == |kwargs| then Success(ctx)
    else
      assert SameKeys(ctx, kwargs) ==> Lookup(ctx, kwargs[i].0).Some? by {
        if SameKeys(ctx, kwargs) {
          LookupAt(ctx, i);
        }
      }
      var ctx' :- ResolveOne(owner, kwargs[i].0, kwargs[i].1, ctx, meta, render);
      ResolveFrom(owner, kwargs, i + 1, ctx', meta, render)
  }

  /** The whole keyword loop, starting from the keyword map itself. */
  function Resolve(owner: string, kwargs: Context, meta: Funcs, render: Renderer): (r: Result<Context, Error>)
    ensures r.Success? ==> SameKeys(r.value, kwargs)
    ensures kwargs == [] ==> r == Success([])
  {
    ResolveFrom(owner, kwargs, 0, kwargs, meta, render)
  }

  /**
   * What resolution makes of one keyword value of block `owner`, given
   * the keyword map `ctx` in force when its item is visited: a plain value
   * is unchanged; a conditional must belong to `owner` and render, and
   * becomes its stripped rendering, except that an empty one leaves the
   * generator in place; a callable without `is_cond` cannot succeed; a
   * sequence becomes its element-wise resolution, in order, with the
   * falsy results dropped.
   */
  ghost predicate ResolvesTo(meta: Funcs, owner: string, ctx: Context, render: Renderer, x: Value, y: Value) {
    match x
    case Plain(_) => y == x
    case OtherCallable => false
    case CondRef(c) =>
      && Owned(meta, c, owner)
      && RenderCond(meta, c, ctx, render).Success?
      && var t := RenderCond(meta, c, ctx, render).value;
         y == if t == [] then x else Plain(TextVal(t))
    case Seq(items) =>
      exists ys: seq<Value> ::
        && |ys| == |items|
        && (forall j :: 0 <= j < |items| ==> ElemResolved(meta, owner, ctx, render, items[j], ys[j]))
        && y == Seq(FilterTruthy(ys))
  }

  lemma ResolveOneSound(owner: string, kwargs: Context, i: nat, ctx: Context, meta: Funcs, render: Renderer)
    requires DistinctKeys(kwargs) && i < |kwargs|
    requires SameKeys(ctx, kwargs) && ctx[i].1 == kwargs[i].1
    ensures var r := ResolveOne(owner, kwargs[i].0, kwargs[i].1, ctx, meta, render);
            r.Success? ==>
              && SameKeys(r.value, kwargs)
              && ResolvesTo(meta, owner, ctx, render, kwargs[i].1, r.value[i].1)
              && forall j :: 0 <= j < |ctx| && j != i ==> r.value[j] == ctx[j]
  {
    var point, x := kwargs[i].0, kwargs[i].1;
    assert DistinctKeys(ctx);
    assert ctx[i].0 == point;
    var m := SubrenderCond(owner, x, ctx, meta, render);
    if m.Success? {
      var maybe := m.value;
      AssignAt(ctx, i, maybe);
      var ctx1 := if Truthy(maybe) then Assign(ctx, point, maybe) else ctx;
      assert SameKeys(ctx1, kwargs) && DistinctKeys(ctx1);
      if x.Seq? {
        assert ctx1 == ctx;
        var e := SubrenderEach(owner, x.items, ctx1, meta, render);
        if e.Success? {
          AssignAt(ctx1, i, Seq(FilterTruthy(e.value)));
          assert ResolvesTo(meta, owner, ctx, render, x, Seq(FilterTruthy(e.value)));
        }
      } else if x.Plain? {
        assert ctx1 == ctx;
      }
    }
  }

  /** Bookkeeping for one step of the loop: item `i` was visited in `ctx`,
      which is the final map up to `i` followed by the items as passed. */
  lemma StepContext(kwargs: Context, i: nat, ctx: Context, step: Context, final: Context)
    requires i < |kwargs| && SameKeys(ctx, kwargs) && |step| == |ctx| && |final| == |ctx|
    requires forall j :: i <= j < |kwargs| ==> ctx[j].1 == kwargs[j].1
    requires forall j :: 0 <= j < |ctx| && j != i ==> step[j] == ctx[j]
    requires final[..i + 1] == step[..i + 1]
    ensures final[..i] == ctx[..i] && final[i] == step[i]
    ensures ctx == final[..i] + kwargs[i..]
  {
    assert final[..i] == final[..i + 1][..i];
    assert final[i] == final[..i + 1][i];
    forall j | 0 <= j < |ctx| ensures ctx[j] == (final[..i] + kwargs[i..])[j] {
      if j >= i {
        assert ctx[j].0 == kwargs[j].0 && ctx[j].1 == kwargs[j].1;
      } else {
        assert final[j] == final[..i][j];
      }
    }
  }

  lemma {:induction false} ResolveFromSound(owner: string, kwargs: Context, i: nat, ctx: Context,
                                            meta: Funcs, render: Renderer)
    requires DistinctKeys(kwargs) && i <= |kwargs|
    requires SameKeys(ctx, kwargs)
    requires forall j :: i <= j < |kwargs| ==> ctx[j].1 == kwargs[j].1
    ensures var r := ResolveFrom(owner, kwargs, i, ctx, meta, render);
            r.Success? ==>
              && SameKeys(r.value, kwargs)
              && r.value[..i] == ctx[..i]
              && forall j :: i <= j < |kwargs| ==>
                   ResolvesTo(meta, owner, r.value[..j] + kwargs[j..], render, kwargs[j].1, r.value[j].1)
    decreases |kwargs| - i
  {
    if i < |kwargs| {
      var s := ResolveOne(owner, kwargs[i].0, kwargs[i].1, ctx, meta, render);
      ResolveOneSound(owner, kwargs, i, ctx, meta, render);
      if s.Success? {
        ResolveFromSound(owner, kwargs, i + 1, s.value, meta, render);
        var r := ResolveFrom(owner, kwargs, i + 1, s.value, meta, render);
        if r.Success? {
          StepContext(kwargs, i, ctx, s.value, r.value);
        }
      }
    }
  }

  /**
   * A successful resolution keeps every keyword in place, and resolves
   * item `j` as `ResolvesTo` says in the keyword map as rewritten up to
   * that item (items before `j` resolved, the rest as passed). So every
   * conditional passed belongs to `owner`, and each is replaced by its own
   * rendering unless that is empty.
   */
  lemma ResolveSound(owner: string, kwargs: Context, meta: Funcs, render: Renderer)
    requires DistinctKeys(kwargs)
    ensures var r := Resolve(owner, kwargs, meta, render);
            r.Success? ==>
              && SameKeys(r.value, kwargs)
              && forall j :: 0 <= j < |kwargs| ==>
                   ResolvesTo(meta, owner, r.value[..j] + kwargs[j..], render, kwargs[j].1, r.value[j].1)
  {
    ResolveFromSound(owner, kwargs, 0, kwargs, meta, render);
  }

  /** Elements that resolve as `ElemResolved` says make the sequence
      resolve to exactly those results. */
  lemma {:induction false} SubrenderEachComplete(owner: string, xs: seq<Value>, ys: seq<Value>, ctx: Context,
                                                 meta: Funcs, render: Renderer)
    requires |ys| == |xs|
    requires forall j :: 0 <= j < |xs| ==> ElemResolved(meta, owner, ctx, render, xs[j], ys[j])
    ensures SubrenderEach(owner, xs, ctx, meta, render) == Success(ys)
  {
    if xs != [] {
      assert ElemResolved(meta, owner, ctx, render, xs[0], ys[0]);
      assert SubrenderCond(owner, xs[0], ctx, meta, render) == Success(ys[0]);
      SubrenderEachComplete(owner, xs[1..], ys[1..], ctx, meta, render);
      assert [ys[0]] + ys[1..] == ys;
    }
  }

  /** An item whose value resolves to `y` as `ResolvesTo` says is
      rewritten to `y` in place, and nothing else changes. */
  lemma ResolveOneComplete(owner: string, ctx: Context, i: nat, y: Value, meta: Funcs, render: Renderer)
    requires DistinctKeys(ctx) && i < |ctx|
    requires ResolvesTo(meta, owner, ctx, render, ctx[i].1, y)
    ensures ResolveOne(owner, ctx[i].0, ctx[i].1, ctx, meta, render) == Success(ctx[i := (ctx[i].0, y)])
  {
    var point, x := ctx[i].0, ctx[i].1;
    LookupDistinct(ctx, i);
    AssignSame(ctx, point, x);
    assert ctx[i := (point, x)] == ctx;
    match x
    case Plain(_) =>
    case CondRef(c) =>
      AssignAt(ctx, i, Plain(TextVal(RenderCond(meta, c, ctx, render).value)));
    case Seq(items) =>
      var ys: seq<Value> :| && |ys| == |items|
        && (forall j :: 0 <= j < |items| ==> ElemResolved(meta, owner, ctx, render, items[j], ys[j]))
        && y == Seq(FilterTruthy(ys));
      SubrenderEachComplete(owner, items, ys, ctx, meta, render);
      AssignAt(ctx, i, y);
  }

  /** The map visited at step `i`: resolved items before `i`, passed ones
      from `i` on. Rewriting item `i` gives the map for step `i + 1`. */
  lemma MixedContext(r: Context, kwargs: Context, i: nat)
    requires DistinctKeys(kwargs) && SameKeys(r, kwargs) && i < |kwargs|
    ensures var ctx := r[..i] + kwargs[i..];
            && DistinctKeys(ctx) && ctx[i] == kwargs[i]
            && ctx[i := (kwargs[i].0, r[i].1)] == r[..i + 1] + kwargs[i + 1..]
  {
    var ctx := r[..i] + kwargs[i..];
    assert forall j :: 0 <= j < |ctx| ==> ctx[j].0 == kwargs[j].0;
    assert r[i] == (kwargs[i].0, r[i].1);
  }

  /**
   * The converse of `ResolveFromSound`: a map `r` whose every item from
   * `i` on resolves as `ResolvesTo` says, in the map as rewritten up to
   * it, is what the rest of the loop returns.
   */
  lemma {:induction false} ResolveFromComplete(owner: string, kwargs: Context, i: nat, r: Context,
                                               meta: Funcs, render: Renderer)
    requires DistinctKeys(kwargs) && SameKeys(r, kwargs) && i <= |kwargs|
    requires forall j :: i <= j < |kwargs| ==>
               ResolvesTo(meta, owner, r[..j] + kwargs[j..], render, kwargs[j].1, r[j].1)
    ensures ResolveFrom(owner, kwargs, i, r[..i] + kwargs[i..], meta, render) == Success(r)
    decreases |kwargs| - i
  {
    var ctx := r[..i] + kwargs[i..];
    if i == |kwargs| {
      assert ctx == r;
    } else {
      MixedContext(r, kwargs, i);
      ResolveOneComplete(owner, ctx, i, r[i].1, meta, render);
      ResolveFromComplete(owner, kwargs, i + 1, r, meta, render);
    }
  }

  /** The converse of `ResolveSound`: a map resolvable item by item as
      `ResolvesTo` says is what the keyword loop returns. */
  lemma ResolveComplete(owner: string, kwargs: Context, r: Context, meta: Funcs, render: Renderer)
    requires DistinctKeys(kwargs) && SameKeys(r, kwargs)
    requires forall j :: 0 <= j < |kwargs| ==>
               ResolvesTo(meta, owner, r[..j] + kwargs[j..], render, kwargs[j].1, r[j].1)
    ensures Resolve(owner, kwargs, meta, render) == Success(r)
  {
    ResolveFromComplete(owner, kwargs, 0, r, meta, render);
    assert r[..0] + kwargs[0..] == kwargs;
  }

  /** The generator's behaviour, as a function of its snapshot and arguments. */
  function Invoke(g: Gen, kwargs: Context, render: Renderer, escape: string -> string): (r: Result<string, Error>)
    ensures g.name !in g.meta ==> r == Failure(KeyError(g.name))
    ensures r.Success? ==> g.name in g.meta && g.meta[g.name].isCond == Some(false)
    ensures r.Success? && kwargs != [] ==>
              g.meta[g.name].rawSql.Some? && Resolve(g.name, kwargs, g.meta, render).Success?
  {
    if g.name !in g.meta then Failure(KeyError(g.name))
    else
      var e := g.meta[g.name];
      if e.isCond.None? then Failure(KeyError("is_cond"))
      else if e.isCond.value then
        if e.condFor.None? then Failure(KeyError("cond_for"))
        else Failure(OutOfScope(g.name, e.condFor.value))
      else if kwargs == [] then
        if e.sql.None? then Failure(KeyError("sql")) else Success(e.sql.value)
      else
        var ctx :- Resolve(g.name, kwargs, g.meta, render);
        if e.rawSql.None? then Failure(KeyError("raw_sql"))
        else
          var out :- render(e.rawSql.value, ctx);
          Success(escape(Strip(out)))
  }

  /**
   * The `for` loop of `fn`: rewrites the keyword map item by item, in
   * place, as `Resolve` specifies.
   */
  method KeywordLoop(owner: string, kwargs: Context, meta: Funcs, render: Renderer)
    returns (res: Result<Context, Error>)
    ensures res == Resolve(owner, kwargs, meta, render)
  {
    var ctx := kwargs;
    var i := 0;
    while i < |kwargs|
      invariant 0 <= i <= |kwargs|
      invariant ResolveFrom(owner, kwargs, i, ctx, meta, render) == Resolve(owner, kwargs, meta, render)
    {
      var point, x := kwargs[i].0, kwargs[i].1;
      ghost var before := ctx;
      var maybe :- SubrenderCond(owner, x, ctx, meta, render);
      if Truthy(maybe) {
        ctx := Assign(ctx, point, maybe);
      }
      if x.Seq? {
        var ys :- SubrenderEach(owner, x.items, ctx, meta, render);
        ctx := Assign(ctx, point, Seq(FilterTruthy(ys)));
      }
      assert ResolveOne(owner, point, x, before, meta, render) == Success(ctx);
      i := i + 1;
    }
    res := Success(ctx);
  }

  /**
   * `fn(**kwargs)`: checks the conditional flag, takes the fast path for
   * no keywords, otherwise rewrites the keyword map item by item and
   * renders, strips and escapes the block's raw source.
   */
  method Call(g: Gen, kwargs: Context, render: Renderer, escape: string -> string)
    returns (r: Result<string, Error>)
    ensures r == Invoke(g, kwargs, render, escape)
    ensures g.name in g.meta && g.meta[g.name].isCond == Some(true) ==> r.Failure?
    ensures kwargs == [] && g.name in g.meta && g.meta[g.name].isCond == Some(false) ==>
              r == if g.meta[g.name].sql.Some? then Success(g.meta[g.name].sql.value)
                   else Failure(KeyError("sql"))
  {
    if g.name !in g.meta {
      return Failure(KeyError(g.name));
    }
    var e := g.meta[g.name];
    if e.isCond.None? {
      return Failure(KeyError("is_cond"));
    }
    if e.isCond.value {
      if e.condFor.None? {
        return Failure(KeyError("cond_for"));
      }
      return Failure(OutOfScope(g.name, e.condFor.value));
    }
    if kwargs == [] {
      if e.sql.None? {
        return Failure(KeyError("sql"));
      }
      return Success(e.sql.value);
    }
    var ctx :- KeywordLoop(g.name, kwargs, g.meta, render);
    if e.rawSql.None? {
      return Failure(KeyError("raw_sql"));
    }
    var out :- render(e.rawSql.value, ctx);
    r := Success(escape(Strip(out)));
  }

  /**
   * A conditional block's generator always fails, whatever the keywords,
   * the renderer and the escaper: nothing is inspected or rendered.
   */
  lemma ConditionalRefused(g: Gen, k1: Context, k2: Context, r1: Renderer, r2: Renderer,
                           e1: string -> string, e2: string -> string)
    requires g.name in g.meta && g.meta[g.name].isCond == Some(true)
    ensures Invoke(g, k1, r1, e1).Failure?
    ensures Invoke(g, k1, r1, e1) == Invoke(g, k2, r2, e2)
    ensures g.meta[g.name].condFor.Some? ==>
              Invoke(g, k1, r1, e1) == Failure(OutOfScope(g.name, g.meta[g.name].condFor.value))
  {
  }

  /** With no keywords a non-conditional generator returns the stored,
      unescaped `sql`. */
  lemma NoKeywordsReturnsSql(g: Gen, render: Renderer, escape: string -> string)
    requires g.name in g.meta && g.meta[g.name].isCond == Some(false)
    requires g.meta[g.name].sql.Some?
    ensures Invoke(g, [], render, escape) == Success(g.meta[g.name].sql.value)
  {
  }

  /**
   * A parametrized call that succeeds has resolved every keyword as
   * `ResolvesTo` says, rendered the raw source with that map, and
   * returned the escaped, stripped rendering.
   */
  lemma InvokeParametrized(g: Gen, kwargs: Context, render: Renderer, escape: string -> string)
    requires DistinctKeys(kwargs) && kwargs != []
    requires Invoke(g, kwargs, render, escape).Success?
    ensures g.name in g.meta && g.meta[g.name].isCond == Some(false) && g.meta[g.name].rawSql.Some?
    ensures var c := Resolve(g.name, kwargs, g.meta, render);
            && c.Success?
            && SameKeys(c.value, kwargs)
            && (forall j :: 0 <= j < |kwargs| ==>
                  ResolvesTo(g.meta, g.name, c.value[..j] + kwargs[j..], render, kwargs[j].1, c.value[j].1))
            && var out := render(g.meta[g.name].rawSql.value, c.value);
               out.Success? && Invoke(g, kwargs, render, escape) == Success(escape(Strip(out.value)))
  {
    ResolveSound(g.name, kwargs, g.meta, render);
  }

  /**
   * When the keywords resolve to `r`, a call to a non-conditional block
   * with a raw source renders that source with `r` and returns the
   * escaped, stripped text, or the renderer's error.
   */
  lemma InvokeComplete(g: Gen, kwargs: Context, r: Context, render: Renderer, escape: string -> string)
    requires g.name in g.meta && g.meta[g.name].isCond == Some(false) && g.meta[g.name].rawSql.Some?
    requires kwargs != [] && DistinctKeys(kwargs) && SameKeys(r, kwargs)
    requires forall j :: 0 <= j < |kwargs| ==>
               ResolvesTo(g.meta, g.name, r[..j] + kwargs[j..], render, kwargs[j].1, r[j].1)
    ensures var o := render(g.meta[g.name].rawSql.value, r);
            Invoke(g, kwargs, render, escape) ==
              if o.Success? then Success(escape(Strip(o.value))) else Failure(o.error)
  {
    ResolveComplete(g.name, kwargs, r, g.meta, render);
  }

  /** A keyword map of plain values comes out of the loop unchanged. */
  lemma PlainKeywordsStay(owner: string, kwargs: Context, meta: Funcs, render: Renderer)
    requires DistinctKeys(kwargs)
    requires forall j :: 0 <= j < |kwargs| ==> kwargs[j].1.Plain?
    ensures Resolve(owner, kwargs, meta, render) == Success(kwargs)
  {
    forall j | 0 <= j < |kwargs|
      ensures ResolvesTo(meta, owner, kwargs[..j] + kwargs[j..], render, kwargs[j].1, kwargs[j].1)
    {
      assert kwargs[..j] + kwargs[j..] == kwargs;
    }
    ResolveComplete(owner, kwargs, kwargs, meta, render);
  }

  /** Plain keyword values reach the renderer unchanged. */
  lemma PlainKeywordsRendered(g: Gen, kwargs: Context, render: Renderer, escape: string -> string)
    requires g.name in g.meta && g.meta[g.name].isCond == Some(false) && g.meta[g.name].rawSql.Some?
    requires kwargs != [] && DistinctKeys(kwargs)
    requires forall j :: 0 <= j < |kwargs| ==> kwargs[j].1.Plain?
    ensures var o := render(g.meta[g.name].rawSql.value, kwargs);
            Invoke(g, kwargs, render, escape) ==
              if o.Success? then Success(escape(Strip(o.value))) else Failure(o.error)
  {
    PlainKeywordsStay(g.name, kwargs, g.meta, render);
  }

  /** Every conditional passed to a call that succeeds, directly or
      inside a sequence, is registered as a conditional of the called block. */
  lemma SucceedsOnlyWithOwnConditions(g: Gen, kwargs: Context, i: nat, c: string,
                                      render: Renderer, escape: string -> string)
    requires DistinctKeys(kwargs) && i < |kwargs|
    requires kwargs[i].1 == CondRef(c) || (kwargs[i].1.Seq? && CondRef(c) in kwargs[i].1.items)
    ensures Invoke(g, kwargs, render, escape).Success? ==> Owned(g.meta, c, g.name)
  {
    if Invoke(g, kwargs, render, escape).Success? {
      InvokeParametrized(g, kwargs, render, escape);
      var rv := Resolve(g.name, kwargs, g.meta, render).value;
      var ctx := rv[..i] + kwargs[i..];
      assert ResolvesTo(g.meta, g.name, ctx, render, kwargs[i].1, rv[i].1);
      if kwargs[i].1.Seq? {
        var items := kwargs[i].1.items;
        var j :| 0 <= j < |items| && items[j] == CondRef(c);
        var ys: seq<Value> :| |ys| == |items|
          && (forall j :: 0 <= j < |items| ==> ElemResolved(g.meta, g.name, ctx, render, items[j], ys[j]))
          && rv[i].1 == Seq(FilterTruthy(ys));
        assert ElemResolved(g.meta, g.name, ctx, render, items[j], ys[j]);
      }
    }
  }

  /** Passing a conditional that belongs to another block, directly or
      inside a sequence, makes the call fail. */
  lemma ForeignConditionFails(g: Gen, kwargs: Context, i: nat, c: string,
                              render: Renderer, escape: string -> string)
    requires DistinctKeys(kwargs) && i < |kwargs|
    requires kwargs[i].1 == CondRef(c) || (kwargs[i].1.Seq? && CondRef(c) in kwargs[i].1.items)
    requires c in g.meta && g.meta[c].condFor.Some? && g.meta[c].condFor.value != g.name
    ensures Invoke(g, kwargs, render, escape).Failure?
  {
    SucceedsOnlyWithOwnConditions(g, kwargs, i, c, render, escape);
  }

  /** `gen_func`: reads the docstring and the flag from the snapshot. */
  function GenFunc(name: string, meta: Funcs): (r: Result<Gen, Error>)
    ensures r.Success? <==> name in meta && meta[name].note.Some? && meta[name].isCond.Some?
    ensures r.Success? ==>
              && r.value.name == name && r.value.meta == meta
              && r.value.doc == meta[name].note.value
              && r.value.isCond == meta[name].isCond.value
    ensures name !in meta ==> r == Failure(KeyError(name))
  {
    if name !in meta then Failure(KeyError(name))
    else if meta[name].note.None? then Failure(KeyError("note"))
    else if meta[name].isCond.None? then Failure(KeyError("is_cond"))
    else Success(Gen(name, meta[name].note.value, meta[name].isCond.value, meta))
  }

  /**
   * How a caller passes a generator as a keyword value: a conditional one
   * is a `CondRef`, any other is an object that is truthy (and has `is_cond`).
   */
  function AsArgument(g: Gen): (x: Value)
    ensures x.CondRef? <==> g.isCond
    ensures x.CondRef? ==> x.name == g.name
    ensures !g.isCond ==> x.Plain? && x.v.ObjectVal?
    ensures Truthy(x)
  {
    if g.isCond then CondRef(g.name) else Plain(ObjectVal(true))
  }

  /** A non-conditional generator passed as a keyword value comes out of
      `subrender_cond` unchanged, in any map and for any block. */
  lemma GeneratorArgumentKept(g: Gen, owner: string, ctx: Context, meta: Funcs, render: Renderer)
    requires !g.isCond
    ensures SubrenderCond(owner, AsArgument(g), ctx, meta, render) == Success(AsArgument(g))
  {
  }
}
