/** The step from an optimistic first phase to the locking fallback, common to the two
schedulers that have one. Shards enter the fallback one by one, each when its own first
phase is over. */
module Fallback {
  import opened Model
  import opened Router
  import K = Locking
  import L = LockingRuns

  /** A step of the first phase or a step of the fallback. */
  datatype Action<F> = Front(a: F) | Back(k: K.Action)

  function Fronts<F>(acts: seq<Action<F>>): seq<F> {
    if acts == [] then []
    else
      var front, last := Fronts(acts[..|acts| - 1]), acts[|acts| - 1];
      if last.Front? then front + [last.a] else front
  }

  function Backs<F>(acts: seq<Action<F>>): seq<K.Action> {
    if acts == [] then []
    else
      var front, last := Backs(acts[..|acts| - 1]), acts[|acts| - 1];
      if last.Back? then front + [last.k] else front
  }

  lemma {:induction false} HalvesAddUp<F>(acts: seq<Action<F>>)
    ensures |Fronts(acts)| + |Backs(acts)| == |acts|
  {
    if acts == [] {
    } else {
      HalvesAddUp(acts[..|acts| - 1]);
    }
  }

  lemma HalvesStep<F>(acts: seq<Action<F>>, a: Action<F>)
    ensures Fronts(acts + [a]) == (if a.Front? then Fronts(acts) + [a.a] else Fronts(acts))
    ensures Backs(acts + [a]) == (if a.Back? then Backs(acts) + [a.k] else Backs(acts))
  {
    assert (acts + [a])[..|acts + [a]| - 1] == acts;
  }

  /** A shard's fallback works on the store its first phase left. */
  function HandOver(stores: seq<Store>, back: K.State, k: K.Action): K.State {
    if k.Start? && k.shard < |back.stores| && k.shard < |stores|
    then back.(stores := back.stores[k.shard := stores[k.shard]])
    else back
  }

  /** Handing over a store that is the shard's part of the fallback's base changes nothing. */
  lemma HandOverExact(c: K.Config, acts: seq<K.Action>, stores: seq<Store>, k: K.Action)
    requires K.Valid(c) && K.Run(c, acts).Some? && K.Enabled(c, K.Run(c, acts).value, k)
    requires k.Start? && k.shard < |stores| ==> stores[k.shard] == Restrict(c.layout, c.base, k.shard)
    ensures HandOver(stores, K.Run(c, acts).value, k) == K.Run(c, acts).value
  {
    if k.Start? {
      K.RunInv(c, acts);
      K.UnstartedKeepsBase(c, K.Run(c, acts).value, k.shard);
    }
  }

  /** One more step of the fallback extends its run. */
  lemma BackStep(c: K.Config, acts: seq<K.Action>, stores: seq<Store>, k: K.Action)
    requires K.Valid(c) && K.Run(c, acts).Some? && K.Enabled(c, K.Run(c, acts).value, k)
    requires k.Start? && k.shard < |stores| ==> stores[k.shard] == Restrict(c.layout, c.base, k.shard)
    ensures K.Enabled(c, HandOver(stores, K.Run(c, acts).value, k), k)
    ensures K.Run(c, acts + [k]) == Some(K.Next(c, HandOver(stores, K.Run(c, acts).value, k), k))
  {
    HandOverExact(c, acts, stores, k);
    assert (acts + [k])[..|acts + [k]| - 1] == acts;
  }
}
