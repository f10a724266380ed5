/** `don_error::DonError`: an error together with a JSON context map whose
    insertion never overwrites an existing entry. */
module DonErrors {

  import opened Text
  import opened DonErrorCtx

  /** An `anyhow::Error`, known by its message. */
  datatype AnyError = AnyError(message: string)

  /** The context: `BTreeMap<String, serde_json::Value>`. */
  type Context = map<string, Json>

  /** The key tried for the `i`-th duplicate of `key`: `format!("{}_{}", key, i)`. */
  function Slot(key: string, i: nat): string
  {
    key + "_" + NatToString(i)
  }

  lemma SlotInjective(key: string, i: nat, j: nat)
    requires Slot(key, i) == Slot(key, j)
    ensures i == j
  {
    var pre := key + "_";
    assert Slot(key, i)[|pre|..] == NatToString(i);
    assert Slot(key, j)[|pre|..] == NatToString(j);
    NatToStringInjective(i, j);
  }

  /** The keys `key_1` ... `key_(n-1)`. */
  function SlotsBelow(key: string, n: nat): set<string>
  {
    set j | 1 <= j < n :: Slot(key, j)
  }

  lemma {:induction false} SlotsBelowSize(key: string, n: nat)
    requires n >= 1
    ensures |SlotsBelow(key, n)| == n - 1
  {
    if n > 1 {
      SlotsBelowSize(key, n - 1);
      assert SlotsBelow(key, n) == SlotsBelow(key, n - 1) + {Slot(key, n - 1)};
      if Slot(key, n - 1) in SlotsBelow(key, n - 1) {
        var j :| 1 <= j < n - 1 && Slot(key, j) == Slot(key, n - 1);
        SlotInjective(key, j, n - 1);
      }
    } else {
      assert SlotsBelow(key, n) == {};
    }
  }

  /** If `key_1` ... `key_(n-1)` are all taken, the context has at least n - 1 entries:
      this is what makes the probing loop stop. */
  lemma OccupiedSlotsBound(ctx: Context, key: string, n: nat)
    requires n >= 1
    requires forall j :: 1 <= j < n ==> Slot(key, j) in ctx
    ensures n - 1 <= |ctx|
  {
    SlotsBelowSize(key, n);
    var below := SlotsBelow(key, n);
    assert below <= ctx.Keys;
    assert ctx.Keys == below + (ctx.Keys - below);
    assert |below| <= |ctx.Keys|;
  }

  /** The smallest `k >= i` whose key `key_k` is free, given that the ones before `i` are taken. */
  function FirstFreeIndex(ctx: Context, key: string, i: nat): (k: nat)
    requires i >= 1
    requires forall j :: 1 <= j < i ==> Slot(key, j) in ctx
    ensures i <= k <= |ctx| + 1
    ensures Slot(key, k) !in ctx
    ensures forall j :: 1 <= j < k ==> Slot(key, j) in ctx
    decreases |ctx| + 1 - i
  {
    OccupiedSlotsBound(ctx, key, i);
    if Slot(key, i) !in ctx then i
    else
      OccupiedSlotsBound(ctx, key, i + 1);
      FirstFreeIndex(ctx, key, i + 1)
  }

  /** Storing under a fresh key adds exactly that entry. */
  lemma StoreFresh(ctx: Context, k: string, value: Json)
    requires k !in ctx
    ensures ctx[k := value].Keys == ctx.Keys + {k} && |ctx[k := value]| == |ctx| + 1
  {
    assert ctx[k := value].Keys == ctx.Keys + {k};
  }

  /** `add_ctx_pair_inner` on the map: an absent key is stored as it is; a
      present one under `key_i` for the smallest free `i >= 1`. Nothing is
      overwritten and the map grows by exactly one entry. */
  function InsertPair(ctx: Context, key: string, value: Json): (r: Context)
    ensures key !in ctx ==> r == ctx[key := value]
    ensures key in ctx ==>
              exists i :: 1 <= i <= |ctx| + 1 && Slot(key, i) !in ctx &&
                          (forall j :: 1 <= j < i ==> Slot(key, j) in ctx) && r == ctx[Slot(key, i) := value]
    ensures ctx.Keys < r.Keys && |r| == |ctx| + 1
    ensures forall k :: k in ctx ==> r[k] == ctx[k]
    ensures value in r.Values
  {
    var k := if key in ctx then Slot(key, FirstFreeIndex(ctx, key, 1)) else key;
    StoreFresh(ctx, k, value);
    assert ctx[k := value][k] == value;
    ctx[k := value]
  }

  /** `add_ctx` on the map: every pair inserted in list order. */
  function InsertAll(ctx: Context, pairs: seq<Pair>): (r: Context)
    ensures ctx.Keys <= r.Keys && |r| == |ctx| + |pairs|
    ensures forall k :: k in ctx ==> r[k] == ctx[k]
    decreases |pairs|
  {
    if pairs == [] then ctx
    else InsertAll(InsertPair(ctx, pairs[0].key, pairs[0].value), pairs[1..])
  }

  lemma {:induction false} InsertAllAppend(ctx: Context, pairs: seq<Pair>, p: Pair)
    ensures InsertAll(ctx, pairs + [p]) == InsertPair(InsertAll(ctx, pairs), p.key, p.value)
    decreases |pairs|
  {
    if pairs == [] {
      assert [] + [p] == [p];
    } else {
      assert (pairs + [p])[1..] == pairs[1..] + [p];
      InsertAllAppend(InsertPair(ctx, pairs[0].key, pairs[0].value), pairs[1..], p);
    }
  }

  /** The owned content of a `DonError` (what `into_inner` returns); the error
      value carried by every `DonResult` in this model, since a `DonError`
      owns its box uniquely. */
  datatype DonErrorInner = DonErrorInner(err: AnyError, context: Context) {

    /** `with_ctx` on a value. */
    function WithCtx(pairs: seq<Pair>): (r: DonErrorInner)
      ensures r.err == err && |r.context| == |context| + |pairs|
    {
      DonErrorInner(err, InsertAll(context, pairs))
    }

    /** `with_ctx_val` on a value. */
    function WithCtxVal(key: string, value: Json): (r: DonErrorInner)
      ensures r.err == err && |r.context| == |context| + 1
      ensures r == WithCtx([Pair(key, value)])
    {
      var ps := [Pair(key, value)];
      assert ps[1..] == [];
      assert InsertAll(context, ps) == InsertAll(InsertPair(context, key, value), []);
      DonErrorInner(err, InsertPair(context, key, value))
    }
  }

  /** `DonError::from(err)`: a fresh error has an empty context. */
  function FromError(e: AnyError): (r: DonErrorInner)
    ensures r.err == e && r.context == map[]
  {
    DonErrorInner(e, map[])
  }

  class DonError {
    var err: AnyError
    var context: Context

    function Inner(): DonErrorInner
      reads this
    {
      DonErrorInner(err, context)
    }

    /** `impl From<T: Into<anyhow::Error>> for DonError` */
    constructor From(e: AnyError)
      ensures Inner() == FromError(e)
    {
      err := e;
      context := map[];
    }

    /** `add_ctx_pair_inner`: probes `key`, then `key_1`, `key_2`, ... and
        stores the value under the first free one. */
    method AddCtxPairInner(key: string, value: Json)
      modifies this
      ensures err == old(err)
      ensures context == InsertPair(old(context), key, value)
    {
      if key in context {
        var i := 1;
        while Slot(key, i) in context
          invariant err == old(err) && context == old(context)
          invariant i >= 1
          invariant forall j :: 1 <= j < i ==> Slot(key, j) in context
          invariant FirstFreeIndex(context, key, i) == FirstFreeIndex(context, key, 1)
          decreases |context| + 1 - i
        {
          OccupiedSlotsBound(context, key, i + 1);
          i := i + 1;
        }
        context := context[Slot(key, i) := value];
      } else {
        context := context[key := value];
      }
    }

    /** `add_ctx_pair`: one owned pair. */
    method AddCtxPair(pair: Pair)
      modifies this
      ensures Inner() == old(Inner()).WithCtxVal(pair.key, pair.value)
    {
      AddCtxPairInner(pair.key, pair.value);
    }

    /** `add_ctx`: every pair of `ctx`, in list order. */
    method AddCtx(ctx: DonErrorContext) returns (self: DonError)
      modifies this
      ensures self == this
      ensures Inner() == old(Inner()).WithCtx(ctx.inner)
    {
      var pairs := ctx.inner;
      ghost var target := InsertAll(context, pairs);
      for n := 0 to |pairs|
        invariant err == old(err)
        invariant InsertAll(context, pairs[n..]) == target
      {
        assert pairs[n..][1..] == pairs[n + 1..];
        AddCtxPairInner(pairs[n].key, pairs[n].value);
      }
      assert pairs[|pairs|..] == [];
      self := this;
    }

    /** `add_ctx_val` */
    method AddCtxVal(key: string, value: Json) returns (self: DonError)
      modifies this
      ensures self == this
      ensures Inner() == old(Inner()).WithCtxVal(key, value)
    {
      AddCtxPair(Pair(key, value));
      self := this;
    }

    /** `add_ctx_ser`: `add_ctx_val` with the serialised value. */
    method AddCtxSer<S>(key: string, serializable: S, serialize: S -> Json) returns (self: DonError)
      modifies this
      ensures self == this
      ensures Inner() == old(Inner()).WithCtxVal(key, Serialized(serializable, serialize))
    {
      self := AddCtxVal(key, Serialized(serializable, serialize));
    }

    /** `with_ctx`: `add_ctx`, then the error itself. */
    method WithCtx(ctx: DonErrorContext) returns (self: DonError)
      modifies this
      ensures self == this
      ensures Inner() == old(Inner()).WithCtx(ctx.inner)
    {
      self := AddCtx(ctx);
    }

    /** `with_ctx_val` */
    method WithCtxVal(key: string, value: Json) returns (self: DonError)
      modifies this
      ensures self == this
      ensures Inner() == old(Inner()).WithCtxVal(key, value)
    {
      self := AddCtxVal(key, value);
    }

    /** `with_ctx_ser` */
    method WithCtxSer<S>(key: string, serializable: S, serialize: S -> Json) returns (self: DonError)
      modifies this
      ensures self == this
      ensures Inner() == old(Inner()).WithCtxVal(key, Serialized(serializable, serialize))
    {
      self := WithCtxVal(key, Serialized(serializable, serialize));
    }

    /** `into_inner`: the wrapped error and the context, unchanged. */
    method IntoInner() returns (e: AnyError, c: Context)
      ensures e == err && c == context
      ensures DonErrorInner(e, c) == Inner()
    {
      e, c := err, context;
    }
  }
}
