/** shardsForScopes (store.go): the shards a batch must hold, in the one order that cannot deadlock. */
module Shards {
  import opened Steps

  /** Exactly the shards the batch touches, each once, strictly ascending. */
  method ShardsForScopes(w: World, batch: Batch) returns (out: seq<nat>)
    requires forall n :: w.shardOf(n) < SHARDS
    ensures forall i, j :: 0 <= i < j < |out| ==> out[i] < out[j]
    ensures forall k :: k in out <==> k in Cover(w, batch)
  {
    var seen := new bool[SHARDS](_ => false);
    for i := 0 to |batch|
      invariant forall k :: 0 <= k < SHARDS ==> (seen[k] <==> exists j :: 0 <= j < i && w.shardOf(batch[j].0) == k)
    {
      seen[w.shardOf(batch[i].0)] := true;
    }
    out := [];
    for k := 0 to SHARDS
      invariant forall i, j :: 0 <= i < j < |out| ==> out[i] < out[j]
      invariant forall x :: x in out <==> 0 <= x < k && seen[x]
    {
      if seen[k] {
        assert forall i :: 0 <= i < |out| ==> out[i] in out;
        out := out + [k];
      }
    }
  }
}
