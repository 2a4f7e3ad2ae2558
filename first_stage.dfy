/**
 * Reading the first-stage decoder's outputs (Inference.py:100-158): outputs
 * resolved by name with a positional fallback, per-layer cache arrays
 * collected and ordered by the layer number in their names, and the
 * aggregated caches split into per-layer slices when the stage decoder
 * declares per-layer inputs that the first stage did not provide.
 */
module FirstStage {
  import opened Wrappers
  import opened Tensors
  import opened Names
  import opened Sessions
  import opened LayerOrder

  /** Python's `list.index`: the first position holding `name`. */
  function IndexOf(names: seq<string>, name: string): (i: nat)
    requires name in names
    ensures i < |names| && names[i] == name
    ensures forall j :: 0 <= j < i ==> names[j] != name
  {
    if names[0] == name then 0 else 1 + IndexOf(names[1..], name)
  }

  /**
   * `_fs_get(name, default_idx)`: the output declared under `name` (its first
   * declaration), else the output at position `defaultIdx`, else None.
   */
  function FsGet(names: seq<string>, outputs: seq<Tensor>, name: string, defaultIdx: nat): (r: Option<Tensor>)
    requires |outputs| == |names|
    ensures r.Some? <==> name in names || defaultIdx < |outputs|
    ensures name in names ==>
      exists k :: (0 <= k < |names| && names[k] == name &&
        (forall j :: 0 <= j < k ==> names[j] != name) && r == Some(outputs[k]))
    ensures name !in names && defaultIdx < |outputs| ==> r == Some(outputs[defaultIdx])
  {
    if name in names then Some(outputs[IndexOf(names, name)])
    else if defaultIdx < |outputs| then Some(outputs[defaultIdx])
    else None
  }

  /** The layer number `_collect_layers` files output i under: parsed from its name, else i itself. */
  function LayerTag(names: seq<string>, i: nat): int
    requires i < |names|
  {
    match LayerIndex(names[i])
    case Some(li) => li
    case None => i
  }

  /** The layer number of every output, in output order. */
  function LayerTags(names: seq<string>): (tags: seq<int>)
    ensures |tags| == |names|
  {
    seq(|names|, i requires 0 <= i < |names| => LayerTag(names, i))
  }

  /**
   * The (layer, array) pairs `_collect_layers(prefix)` appends while scanning
   * the first n outputs, output i being filed under `tags[i]`.
   */
  function TaggedLayers(names: seq<string>, outputs: seq<Tensor>, tags: seq<int>, prefix: string, n: nat): seq<Tagged>
    requires |outputs| == |names| == |tags| && n <= |names|
  {
    if n == 0 then []
    else
      TaggedLayers(names, outputs, tags, prefix, n - 1) +
        (if StartsWith(names[n - 1], prefix) then [(tags[n - 1], outputs[n - 1])] else [])
  }

  /** The scan over the first n outputs gathers one pair per name among them that starts with the prefix. */
  lemma {:induction false} TaggedLayersCount(names: seq<string>, outputs: seq<Tensor>, tags: seq<int>, prefix: string, n: nat)
    requires |outputs| == |names| == |tags| && n <= |names|
    ensures |TaggedLayers(names, outputs, tags, prefix, n)| == CountPrefixed(names[..n], prefix)
  {
    if n > 0 {
      TaggedLayersCount(names, outputs, tags, prefix, n - 1);
      assert names[..n][..n - 1] == names[..n - 1];
    }
  }

  /** Every pair `_collect_layers` gathers comes from an output whose name starts with the prefix, under that output's tag. */
  lemma {:induction false} TaggedLayersSound(names: seq<string>, outputs: seq<Tensor>, tags: seq<int>, prefix: string, n: nat, j: nat)
    requires |outputs| == |names| == |tags| && n <= |names|
    requires j < |TaggedLayers(names, outputs, tags, prefix, n)|
    ensures exists i :: (0 <= i < n && StartsWith(names[i], prefix) &&
      TaggedLayers(names, outputs, tags, prefix, n)[j] == (tags[i], outputs[i]))
  {
    var before := TaggedLayers(names, outputs, tags, prefix, n - 1);
    if j < |before| {
      TaggedLayersSound(names, outputs, tags, prefix, n - 1, j);
      assert TaggedLayers(names, outputs, tags, prefix, n)[j] == before[j];
    } else {
      assert StartsWith(names[n - 1], prefix);
    }
  }

  /** Every output whose name starts with the prefix is gathered, under its tag. */
  lemma {:induction false} TaggedLayersComplete(names: seq<string>, outputs: seq<Tensor>, tags: seq<int>, prefix: string, n: nat, i: nat)
    requires |outputs| == |names| == |tags| && i < n <= |names|
    requires StartsWith(names[i], prefix)
    ensures (tags[i], outputs[i]) in TaggedLayers(names, outputs, tags, prefix, n)
  {
    var before := TaggedLayers(names, outputs, tags, prefix, n - 1);
    if i < n - 1 {
      TaggedLayersComplete(names, outputs, tags, prefix, n - 1, i);
      assert (tags[i], outputs[i]) in before;
    } else {
      assert TaggedLayers(names, outputs, tags, prefix, n) == before + [(tags[i], outputs[i])];
    }
  }

  /**
   * `_collect_layers(prefix)`: the outputs whose names start with `prefix`,
   * ordered (stably) by the layer number each is filed under.
   */
  method CollectLayers(names: seq<string>, outputs: seq<Tensor>, prefix: string) returns (layers: seq<Tensor>)
    requires |outputs| == |names|
    ensures layers == Arrays(SortByLayer(TaggedLayers(names, outputs, LayerTags(names), prefix, |names|)))
    ensures |layers| == CountPrefixed(names, prefix)
  {
    ghost var tags := LayerTags(names);
    var tagged: seq<Tagged> := [];
    for idx := 0 to |names|
      invariant tagged == TaggedLayers(names, outputs, tags, prefix, idx)
    {
      if StartsWith(names[idx], prefix) {
        var li := match LayerIndex(names[idx]) case Some(v) => v case None => idx;
        assert li == tags[idx];
        tagged := tagged + [(li, outputs[idx])];
      }
    }
    assert names[..|names|] == names;
    TaggedLayersCount(names, outputs, tags, prefix, |names|);
    layers := Arrays(SortByLayer(tagged));
  }

  /** `max(#past_k_layer_ inputs, #past_v_layer_ inputs)`: how many per-layer caches the stage decoder declares. */
  function DeclaredLayers(stageInputs: seq<string>): (n: nat)
    ensures n >= CountPrefixed(stageInputs, "past_k_layer_") && n >= CountPrefixed(stageInputs, "past_v_layer_")
    ensures n == CountPrefixed(stageInputs, "past_k_layer_") || n == CountPrefixed(stageInputs, "past_v_layer_")
  {
    var k, v := CountPrefixed(stageInputs, "past_k_layer_"), CountPrefixed(stageInputs, "past_v_layer_");
    if k >= v then k else v
  }

  /**
   * The per-layer cache after reconciliation: when the stage decoder declares
   * per-layer inputs and only the aggregated tensor exists, `np.split` of it
   * into `n` slices along axis 0, or None when the split raises; otherwise the
   * per-layer list as collected.
   */
  function SplitIfExpected(n: nat, layers: Option<seq<Tensor>>, agg: Option<Tensor>): (r: Option<seq<Tensor>>)
    ensures n == 0 || layers.Some? || agg.None? ==> r == layers
    ensures n > 0 && layers.None? && agg.Some? ==>
      (r.Some? <==> |agg.value.shape| > 0 && agg.value.shape[0] % n == 0)
    ensures n > 0 && layers.None? && r.Some? ==>
      agg.Some? && |r.value| == n && Flatten(r.value) == agg.value.data &&
      forall i :: 0 <= i < n ==> r.value[i].shape == [agg.value.shape[0] / n] + agg.value.shape[1..]
  {
    if n > 0 && layers.None? && agg.Some? then
      var parts := Split0(agg.value, n);
      assert parts.Some? ==> Flatten(parts.value) == agg.value.data by {
        if parts.Some? {
          SplitJoin(agg.value, n);
        }
      }
      parts
    else layers
  }
}
