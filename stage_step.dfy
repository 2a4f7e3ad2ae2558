/**
 * One step of the stage decoder (Inference.py:160-258): the input feed built
 * from the declared input names, the outputs unpacked by name with their
 * defaults, the key/value caches carried to the next step, and the
 * three-tier end-of-sequence test.
 */
module StageStep {
  import opened Wrappers
  import opened Tensors
  import opened Names
  import opened Sessions
  import opened LayerOrder

  /**
   * The key/value caches carried between steps: per-layer lists and
   * aggregated tensors, each possibly absent.
   */
  datatype Caches = Caches(
    kLayers: Option<seq<Tensor>>, vLayers: Option<seq<Tensor>>,
    kAgg: Option<Tensor>, vAgg: Option<Tensor>)

  // ---------------------------------------------------------------------------
  // _build_stage_feed

  /** The slice a `past_*_layer_L` input receives: slice L when L parses and is in range. */
  function LayerSlot(name: string, layers: seq<Tensor>): Option<Option<Tensor>>
  {
    match LayerIndex(name)
    case Some(li) => if 0 <= li < |layers| then Some(Some(layers[li])) else None
    case None => None
  }

  /** What `_build_stage_feed` puts under one declared input name; None when it puts nothing. */
  function FeedEntry(name: string, y: Option<Tensor>, yEmb: Option<Tensor>, c: Caches, xExample: Option<Tensor>)
    : Option<Option<Tensor>>
  {
    if name == "iy" then Some(y)
    else if name == "iy_emb" then Some(yEmb)
    else if name == "ix_example" && xExample.Some? then Some(xExample)
    else if name == "ik" && c.kAgg.Some? then Some(c.kAgg)
    else if name == "iv" && c.vAgg.Some? then Some(c.vAgg)
    else if StartsWith(name, "past_k_layer_") && c.kLayers.Some? then LayerSlot(name, c.kLayers.value)
    else if StartsWith(name, "past_v_layer_") && c.vLayers.Some? then LayerSlot(name, c.vLayers.value)
    else None
  }

  /** The feed: every declared input name that receives something, with what it receives. */
  function StageFeed(names: seq<string>, y: Option<Tensor>, yEmb: Option<Tensor>, c: Caches, xExample: Option<Tensor>)
    : Feed
  {
    map n | n in names && FeedEntry(n, y, yEmb, c, xExample).Some? :: FeedEntry(n, y, yEmb, c, xExample).value
  }

  /** Extending the scanned names by one adds that name's entry, if it has one. */
  lemma StageFeedSnoc(names: seq<string>, i: nat, y: Option<Tensor>, yEmb: Option<Tensor>, c: Caches, xExample: Option<Tensor>)
    requires i < |names|
    ensures StageFeed(names[..i + 1], y, yEmb, c, xExample) ==
      match FeedEntry(names[i], y, yEmb, c, xExample)
      case Some(v) => StageFeed(names[..i], y, yEmb, c, xExample)[names[i] := v]
      case None => StageFeed(names[..i], y, yEmb, c, xExample)
  {
    assert names[..i + 1] == names[..i] + [names[i]];
  }

  /**
   * What the feed holds under one name: only declared names are fed; `iy`
   * and `iy_emb` always are; `ix_example`, `ik` and `iv` only when their
   * value exists; a `past_*_layer_L` input gets slice L only when L parses
   * and `0 <= L < len(slices)`, and is otherwise left out; any other
   * declared name is never fed.
   */
  lemma StageFeedByName(names: seq<string>, y: Option<Tensor>, yEmb: Option<Tensor>, c: Caches, xExample: Option<Tensor>, n: string)
    ensures var feed := StageFeed(names, y, yEmb, c, xExample);
      (n in feed ==> n in names) &&
      (n == "iy" ==> (n in feed <==> n in names) && (n in feed ==> feed[n] == y)) &&
      (n == "iy_emb" ==> (n in feed <==> n in names) && (n in feed ==> feed[n] == yEmb)) &&
      (n == "ix_example" ==> (n in feed <==> n in names && xExample.Some?) && (n in feed ==> feed[n] == xExample)) &&
      (n == "ik" ==> (n in feed <==> n in names && c.kAgg.Some?) && (n in feed ==> feed[n] == c.kAgg)) &&
      (n == "iv" ==> (n in feed <==> n in names && c.vAgg.Some?) && (n in feed ==> feed[n] == c.vAgg))
    ensures var feed := StageFeed(names, y, yEmb, c, xExample);
      StartsWith(n, "past_k_layer_") ==>
        (n in feed <==> n in names && c.kLayers.Some? && LayerIndex(n).Some? && 0 <= LayerIndex(n).value < |c.kLayers.value|) &&
        (n in feed ==> feed[n] == Some(c.kLayers.value[LayerIndex(n).value]))
    ensures var feed := StageFeed(names, y, yEmb, c, xExample);
      StartsWith(n, "past_v_layer_") ==>
        (n in feed <==> n in names && c.vLayers.Some? && LayerIndex(n).Some? && 0 <= LayerIndex(n).value < |c.vLayers.value|) &&
        (n in feed ==> feed[n] == Some(c.vLayers.value[LayerIndex(n).value]))
    ensures (n != "iy" && n != "iy_emb" && n != "ix_example" && n != "ik" && n != "iv" &&
             !StartsWith(n, "past_k_layer_") && !StartsWith(n, "past_v_layer_")) ==>
      n !in StageFeed(names, y, yEmb, c, xExample)
  {
    if StartsWith(n, "past_v_layer_") {
      assert n[5] == 'v';
      assert !StartsWith(n, "past_k_layer_");
    }
  }

  /**
   * `_build_stage_feed`: fills the feed one declared input name at a time,
   * each name receiving what `StageFeedByName` describes.
   */
  method BuildStageFeed(names: seq<string>, y: Option<Tensor>, yEmb: Option<Tensor>, c: Caches, xExample: Option<Tensor>)
    returns (feed: Feed)
    ensures feed == StageFeed(names, y, yEmb, c, xExample)
  {
    feed := map[];
    for i := 0 to |names|
      invariant feed == StageFeed(names[..i], y, yEmb, c, xExample)
    {
      var name := names[i];
      StageFeedSnoc(names, i, y, yEmb, c, xExample);
      if name == "iy" {
        feed := feed[name := y];
      } else if name == "iy_emb" {
        feed := feed[name := yEmb];
      } else if name == "ix_example" && xExample.Some? {
        feed := feed[name := xExample];
      } else if name == "ik" && c.kAgg.Some? {
        feed := feed[name := c.kAgg];
      } else if name == "iv" && c.vAgg.Some? {
        feed := feed[name := c.vAgg];
      } else if StartsWith(name, "past_k_layer_") && c.kLayers.Some? {
        var li := LayerIndex(name);
        if li.Some? && 0 <= li.value < |c.kLayers.value| {
          feed := feed[name := Some(c.kLayers.value[li.value])];
        }
      } else if StartsWith(name, "past_v_layer_") && c.vLayers.Some? {
        var li := LayerIndex(name);
        if li.Some? && 0 <= li.value < |c.vLayers.value| {
          feed := feed[name := Some(c.vLayers.value[li.value])];
        }
      }
    }
    assert names[..|names|] == names;
  }

  // ---------------------------------------------------------------------------
  // _unpack_stage_outputs

  /** A dict entry; a dict is a list of entries with distinct keys, in insertion order. */
  type Entry = (string, Tensor)

  /** `d[k] = v`: replaces the value in place when k is a key, else appends. */
  function Put(m: seq<Entry>, k: string, v: Tensor): (r: seq<Entry>)
    ensures |r| == |m| || |r| == |m| + 1
  {
    if m == [] then [(k, v)]
    else if m[0].0 == k then [(k, v)] + m[1..]
    else [m[0]] + Put(m[1..], k, v)
  }

  /** `d.get(k)`. */
  function Lookup(m: seq<Entry>, k: string): Option<Tensor>
  {
    if m == [] then None
    else if m[0].0 == k then Some(m[0].1)
    else Lookup(m[1..], k)
  }

  /** `d.get(k, default)`. */
  function Get(m: seq<Entry>, k: string, default: Option<Tensor>): Option<Tensor>
  {
    if Lookup(m, k).Some? then Lookup(m, k) else default
  }

  /** `{name: outputs[idx] for idx, name in enumerate(names)}`. */
  function OutMap(names: seq<string>, outputs: seq<Tensor>): seq<Entry>
    requires |outputs| == |names|
  {
    if names == [] then []
    else Put(OutMap(names[..|names| - 1], outputs[..|names| - 1]), names[|names| - 1], outputs[|names| - 1])
  }

  /** The last position holding `name`. */
  function LastIndexOf(names: seq<string>, name: string): (i: nat)
    requires name in names
    ensures i < |names| && names[i] == name
    ensures forall j :: i < j < |names| ==> names[j] != name
  {
    if names[|names| - 1] == name then |names| - 1
    else
      assert name in names[..|names| - 1] by {
        var j :| 0 <= j < |names| && names[j] == name;
        assert names[..|names| - 1][j] == name;
      }
      LastIndexOf(names[..|names| - 1], name)
  }

  lemma {:induction false} LookupPut(m: seq<Entry>, k: string, v: Tensor, k': string)
    ensures Lookup(Put(m, k, v), k') == if k' == k then Some(v) else Lookup(m, k')
  {
    if m != [] && m[0].0 != k {
      LookupPut(m[1..], k, v, k');
    }
  }

  /** A name declared more than once keeps the output at its last declaration, as a dict comprehension does. */
  lemma {:induction false} OutMapLookup(names: seq<string>, outputs: seq<Tensor>, k: string)
    requires |outputs| == |names|
    ensures Lookup(OutMap(names, outputs), k) == if k in names then Some(outputs[LastIndexOf(names, k)]) else None
  {
    if names != [] {
      var n := |names|;
      OutMapLookup(names[..n - 1], outputs[..n - 1], k);
      LookupPut(OutMap(names[..n - 1], outputs[..n - 1]), names[n - 1], outputs[n - 1], k);
      if k != names[n - 1] {
        assert k in names <==> k in names[..n - 1] by {
          assert names == names[..n - 1] + [names[n - 1]];
        }
        if k in names {
          assert LastIndexOf(names, k) == LastIndexOf(names[..n - 1], k);
        }
      }
    }
  }

  /** What `_unpack_stage_outputs` returns. */
  datatype StageOutputs = StageOutputs(
    y: Option<Tensor>, yEmb: Option<Tensor>,
    kLayers: Option<seq<Tensor>>, vLayers: Option<seq<Tensor>>,
    kAgg: Option<Tensor>, vAgg: Option<Tensor>,
    logits: Option<Tensor>, samples: Option<Tensor>)

  /**
   * Is `nm` a name the unpacking files under the k list (or, for `wantV`, the
   * v list)? A `present_k_layer_` name never goes to the v list.
   */
  predicate IsPresent(nm: string, wantV: bool)
  {
    if wantV then !StartsWith(nm, "present_k_layer_") && StartsWith(nm, "present_v_layer_")
    else StartsWith(nm, "present_k_layer_")
  }

  /** A dict entry filed under its parsed layer number, or 0 where `int()` raises. */
  function PresentTag(e: Entry): Tagged
  {
    (LayerIndex(e.0).GetOr(0), e.1)
  }

  /**
   * The layer-tagged arrays gathered from the first n dict entries whose
   * names are `IsPresent`, each filed under its parsed layer number, or 0.
   */

  function PresentTags(items: seq<Entry>, wantV: bool, n: nat): seq<Tagged>
    requires n <= |items|
  {
    if n == 0 then []
    else
      var nm := items[n - 1].0;
      PresentTags(items, wantV, n - 1) +
        (if IsPresent(nm, wantV) then [PresentTag(items[n - 1])] else [])
  }

  lemma {:induction false} PresentTagsNonEmpty(items: seq<Entry>, wantV: bool, n: nat)
    requires n <= |items|
    ensures PresentTags(items, wantV, n) != [] <==> exists j :: 0 <= j < n && IsPresent(items[j].0, wantV)
  {
    if n > 0 {
      PresentTagsNonEmpty(items, wantV, n - 1);
    }
  }

  lemma {:induction false} LookupFinds(m: seq<Entry>, k: string)
    ensures Lookup(m, k).Some? <==> exists j :: 0 <= j < |m| && m[j].0 == k
  {
    if m != [] && m[0].0 != k {
      LookupFinds(m[1..], k);
      if exists j :: 0 <= j < |m| && m[j].0 == k {
        var j :| 0 <= j < |m| && m[j].0 == k;
        assert m[1..][j - 1].0 == k;
      }
    }
  }

  /**
   * The per-layer lists are present exactly when some declared output name
   * carries their prefix (for v, the `present_v_layer_` prefix without the
   * `present_k_layer_` one).
   */
  lemma UnpackLayersPresent(names: seq<string>, outputs: seq<Tensor>, prevYEmb: Option<Tensor>)
    requires |outputs| >= |names|
    ensures UnpackSpec(names, outputs, prevYEmb).kLayers.Some? <==>
      exists i :: 0 <= i < |names| && IsPresent(names[i], false)
    ensures UnpackSpec(names, outputs, prevYEmb).vLayers.Some? <==>
      exists i :: 0 <= i < |names| && IsPresent(names[i], true)
  {
    var m := OutMap(names, outputs[..|names|]);
    PresentTagsNonEmpty(m, false, |m|);
    PresentTagsNonEmpty(m, true, |m|);
    PresentNamesAgree(names, outputs[..|names|], false);
    PresentNamesAgree(names, outputs[..|names|], true);
  }

  /** The dict built from the outputs has a qualifying key exactly when a declared name qualifies. */
  lemma PresentNamesAgree(names: seq<string>, outputs: seq<Tensor>, wantV: bool)
    requires |outputs| == |names|
    ensures var m := OutMap(names, outputs);
      (exists j :: 0 <= j < |m| && IsPresent(m[j].0, wantV)) <==>
      (exists i :: 0 <= i < |names| && IsPresent(names[i], wantV))
  {
    var m := OutMap(names, outputs);
    if j :| 0 <= j < |m| && IsPresent(m[j].0, wantV) {
      var k := m[j].0;
      LookupFinds(m, k);
      OutMapLookup(names, outputs, k);
      assert names[LastIndexOf(names, k)] == k;
    }
    if i :| 0 <= i < |names| && IsPresent(names[i], wantV) {
      var k := names[i];
      OutMapLookup(names, outputs, k);
      LookupFinds(m, k);
    }
  }

  /** The keys of a dict, in insertion order. */
  function Keys(items: seq<Entry>): (r: seq<string>)
    ensures |r| == |items| && forall i :: 0 <= i < |items| ==> r[i] == items[i].0
  {
    seq(|items|, i requires 0 <= i < |items| => items[i].0)
  }

  /** No key occurs twice, as in a Python dict. */
  ghost predicate DistinctKeys(m: seq<Entry>)
  {
    forall i, j :: 0 <= i < j < |m| ==> m[i].0 != m[j].0
  }

  /** `d[k] = v` keeps the keys distinct. */
  lemma {:induction false} PutDistinct(m: seq<Entry>, k: string, v: Tensor)
    requires DistinctKeys(m)
    ensures DistinctKeys(Put(m, k, v))
  {
    if m != [] && m[0].0 != k {
      PutDistinct(m[1..], k, v);
      var r := Put(m[1..], k, v);
      forall j | 0 <= j < |r|
        ensures r[j].0 != m[0].0
      {
        LookupFinds(r, r[j].0);
        LookupPut(m[1..], k, v, r[j].0);
        LookupFinds(m[1..], r[j].0);
      }
    }
  }

  /** The dict comprehension has distinct keys. */
  lemma {:induction false} OutMapDistinct(names: seq<string>, outputs: seq<Tensor>)
    requires |outputs| == |names|
    ensures DistinctKeys(OutMap(names, outputs))
  {
    if names != [] {
      var n := |names|;
      OutMapDistinct(names[..n - 1], outputs[..n - 1]);
      PutDistinct(OutMap(names[..n - 1], outputs[..n - 1]), names[n - 1], outputs[n - 1]);
    }
  }

  /** With distinct keys, looking up an entry's key finds that entry. */
  lemma {:induction false} LookupAt(m: seq<Entry>, i: nat)
    requires DistinctKeys(m) && i < |m|
    ensures Lookup(m, m[i].0) == Some(m[i].1)
  {
    if i > 0 {
      LookupAt(m[1..], i - 1);
    }
  }

  /** The dict's keys are the declared names. */
  lemma KeyInOutMap(names: seq<string>, outputs: seq<Tensor>, x: string)
    requires |outputs| == |names|
    ensures x in Keys(OutMap(names, outputs)) <==> x in names
  {
    var m := OutMap(names, outputs);
    OutMapLookup(names, outputs, x);
    LookupFinds(m, x);
    if x in Keys(m) {
      var i :| 0 <= i < |m| && Keys(m)[i] == x;
      assert m[i].0 == x;
    }
    if x in names {
      var i :| 0 <= i < |m| && m[i].0 == x;
      assert Keys(m)[i] == x;
    }
  }

  /** Each dict entry holds a declared name and the output at its last declaration. */
  lemma EntryOfOutMap(names: seq<string>, outputs: seq<Tensor>, i: nat)
    requires |outputs| == |names| && i < |OutMap(names, outputs)|
    ensures var m := OutMap(names, outputs);
      m[i].0 in names && m[i].1 == outputs[LastIndexOf(names, m[i].0)]
  {
    var m := OutMap(names, outputs);
    OutMapDistinct(names, outputs);
    LookupAt(m, i);
    OutMapLookup(names, outputs, m[i].0);
  }

  /** The prefixed names of `init + [x]` are those of `init`, plus x when it has the prefix. */
  lemma PrefixedSetSnoc(init: seq<string>, x: string, prefix: string)
    ensures (set y | y in init + [x] && StartsWith(y, prefix)) ==
      (set y | y in init && StartsWith(y, prefix)) + (if StartsWith(x, prefix) then {x} else {})
  {
  }

  /** Among distinct names, the prefixed count is the size of the set of prefixed names. */
  lemma {:induction false} DistinctCount(s: seq<string>, prefix: string)
    requires forall i, j :: 0 <= i < j < |s| ==> s[i] != s[j]
    ensures CountPrefixed(s, prefix) == |set x | x in s && StartsWith(x, prefix)|
  {
    if s != [] {
      var n := |s|;
      var init := s[..n - 1];
      DistinctCount(init, prefix);
      assert s == init + [s[n - 1]];
      PrefixedSetSnoc(init, s[n - 1], prefix);
      assert s[n - 1] !in init by {
        forall j | 0 <= j < n - 1
          ensures init[j] != s[n - 1]
        {
          assert init[j] == s[j];
        }
      }
    }
  }

  /** The cache prefix a name must carry to be filed under the k list or, for `wantV`, the v list. */
  function PresentPrefix(wantV: bool): string
  {
    if wantV then "present_v_layer_" else "present_k_layer_"
  }

  /** No name carries both cache prefixes, so the k-first test files a name by its prefix alone. */
  lemma IsPresentByPrefix(nm: string, wantV: bool)
    ensures IsPresent(nm, wantV) <==> StartsWith(nm, PresentPrefix(wantV))
  {
    if StartsWith(nm, "present_k_layer_") {
      assert nm[8] == 'k' by {
        assert nm[..16][8] == nm[8];
      }
      assert nm[..16][8] == nm[8];
    }
  }

  /** The scan over the first n dict entries gathers one pair per key among them with the prefix. */
  lemma {:induction false} PresentTagsCount(items: seq<Entry>, wantV: bool, n: nat)
    requires n <= |items|
    ensures |PresentTags(items, wantV, n)| == CountPrefixed(Keys(items)[..n], PresentPrefix(wantV))
  {
    if n > 0 {
      PresentTagsCount(items, wantV, n - 1);
      assert Keys(items)[..n][..n - 1] == Keys(items)[..n - 1];
      IsPresentByPrefix(items[n - 1].0, wantV);
    }
  }

  /** Every gathered pair is a qualifying entry, filed under its parsed layer number or 0. */
  lemma {:induction false} PresentTagsSound(items: seq<Entry>, wantV: bool, n: nat, j: nat)
    requires n <= |items| && j < |PresentTags(items, wantV, n)|
    ensures exists i :: (0 <= i < n && IsPresent(items[i].0, wantV) &&
      PresentTags(items, wantV, n)[j] == PresentTag(items[i]))
  {
    var before := PresentTags(items, wantV, n - 1);
    if j < |before| {
      PresentTagsSound(items, wantV, n - 1, j);
      assert PresentTags(items, wantV, n)[j] == before[j];
    } else {
      assert IsPresent(items[n - 1].0, wantV);
    }
  }

  /** The first n entries that `keep` accepts, each mapped by `tag`. */
  function Gathered(items: seq<Entry>, keep: Entry -> bool, tag: Entry -> Tagged, n: nat): seq<Tagged>
    requires n <= |items|
  {
    if n == 0 then [] else Gathered(items, keep, tag, n - 1) + (if keep(items[n - 1]) then [tag(items[n - 1])] else [])
  }

  /** The unpacking's scan is such a filter. */
  lemma {:induction false} PresentTagsGathered(items: seq<Entry>, wantV: bool, n: nat)
    requires n <= |items|
    ensures PresentTags(items, wantV, n) == Gathered(items, (e: Entry) => IsPresent(e.0, wantV), PresentTag, n)
  {
    if n > 0 {
      PresentTagsGathered(items, wantV, n - 1);
    }
  }

  /** Filtering fewer entries gives a prefix of filtering more. */
  lemma {:induction false} GatheredPrefix(items: seq<Entry>, keep: Entry -> bool, tag: Entry -> Tagged, m: nat, n: nat)
    requires m <= n <= |items|
    ensures |Gathered(items, keep, tag, m)| <= |Gathered(items, keep, tag, n)|
    ensures Gathered(items, keep, tag, m) == Gathered(items, keep, tag, n)[..|Gathered(items, keep, tag, m)|]
    decreases n
  {
    if m < n {
      GatheredPrefix(items, keep, tag, m, n - 1);
      var before := Gathered(items, keep, tag, n - 1);
      var full := Gathered(items, keep, tag, n);
      assert full[..|before|] == before;
      assert full[..|before|][..|Gathered(items, keep, tag, m)|] == full[..|Gathered(items, keep, tag, m)|];
    }
  }

  /** Every accepted entry among the first n is in the filter's result. */
  lemma GatheredComplete(items: seq<Entry>, keep: Entry -> bool, tag: Entry -> Tagged, n: nat, i: nat)
    requires i < n <= |items| && keep(items[i])
    ensures tag(items[i]) in Gathered(items, keep, tag, n)
  {
    GatheredPrefix(items, keep, tag, i + 1, n);
    var k := |Gathered(items, keep, tag, i)|;
    assert Gathered(items, keep, tag, i + 1)[k] == tag(items[i]);
    assert Gathered(items, keep, tag, n)[k] == tag(items[i]);
  }

  /** Every qualifying entry is gathered, filed under its parsed layer number or 0. */
  lemma PresentTagsComplete(items: seq<Entry>, wantV: bool, n: nat, i: nat)
    requires i < n <= |items| && IsPresent(items[i].0, wantV)
    ensures PresentTag(items[i]) in PresentTags(items, wantV, n)
  {
    var keep: Entry -> bool := (e: Entry) => IsPresent(e.0, wantV);
    PresentTagsGathered(items, wantV, n);
    assert keep(items[i]);
    GatheredComplete(items, keep, PresentTag, n, i);
  }

  /** The dict has one qualifying entry per distinct declared name with the prefix. */
  lemma UnpackLayersCount(names: seq<string>, outputs: seq<Tensor>, wantV: bool)
    requires |outputs| == |names|
    ensures var m := OutMap(names, outputs);
      |PresentTags(m, wantV, |m|)| == |set nm | nm in names && StartsWith(nm, PresentPrefix(wantV))|
  {
    var m := OutMap(names, outputs);
    var prefix := PresentPrefix(wantV);
    OutMapDistinct(names, outputs);
    PresentTagsCount(m, wantV, |m|);
    assert Keys(m)[..|m|] == Keys(m);
    DistinctCount(Keys(m), prefix);
    assert (set x | x in Keys(m) && StartsWith(x, prefix)) == (set nm | nm in names && StartsWith(nm, prefix)) by {
      forall x
        ensures x in Keys(m) <==> x in names
      {
        KeyInOutMap(names, outputs, x);
      }
    }
  }

  /** Every gathered pair is a declared name's last output, filed under its layer number or 0. */
  lemma UnpackLayersSound(names: seq<string>, outputs: seq<Tensor>, wantV: bool, t: Tagged)
    requires |outputs| == |names|
    requires var m := OutMap(names, outputs); t in PresentTags(m, wantV, |m|)
    ensures exists nm :: (nm in names && StartsWith(nm, PresentPrefix(wantV)) &&
      t == (LayerIndex(nm).GetOr(0), outputs[LastIndexOf(names, nm)]))
  {
    var m := OutMap(names, outputs);
    var tags := PresentTags(m, wantV, |m|);
    var j :| 0 <= j < |tags| && tags[j] == t;
    PresentTagsSound(m, wantV, |m|, j);
    var i :| 0 <= i < |m| && IsPresent(m[i].0, wantV) && tags[j] == PresentTag(m[i]);
    EntryOfOutMap(names, outputs, i);
    IsPresentByPrefix(m[i].0, wantV);
  }

  /** Every declared name with the prefix contributes its last output, filed under its layer number or 0. */
  lemma UnpackLayersComplete(names: seq<string>, outputs: seq<Tensor>, wantV: bool, nm: string)
    requires |outputs| == |names|
    requires nm in names && StartsWith(nm, PresentPrefix(wantV))
    ensures var m := OutMap(names, outputs);
      (LayerIndex(nm).GetOr(0), outputs[LastIndexOf(names, nm)]) in PresentTags(m, wantV, |m|)
  {
    var m := OutMap(names, outputs);
    KeyInOutMap(names, outputs, nm);
    var i :| 0 <= i < |m| && Keys(m)[i] == nm;
    EntryOfOutMap(names, outputs, i);
    IsPresentByPrefix(nm, wantV);
    PresentTagsComplete(m, wantV, |m|, i);
  }

  /**
   * What the unpacked per-layer lists hold: one array per distinct declared
   * name with the list's prefix (`present_k_layer_` winning over
   * `present_v_layer_`), namely the output at that name's last declaration,
   * filed under the parsed layer number or under 0 when `int()` raises; the
   * pairs are taken in dict order and then stably sorted by that number.
   */
  lemma UnpackLayersContent(names: seq<string>, outputs: seq<Tensor>, prevYEmb: Option<Tensor>, wantV: bool)
    requires |outputs| >= |names|
    ensures var m := OutMap(names, outputs[..|names|]);
      var tags := PresentTags(m, wantV, |m|);
      var u := UnpackSpec(names, outputs, prevYEmb);
      (if wantV then u.vLayers else u.kLayers) == (if tags == [] then None else Some(Arrays(SortByLayer(tags)))) &&
      |tags| == |set nm | nm in names && StartsWith(nm, PresentPrefix(wantV))| &&
      (forall t :: t in tags ==> exists nm :: (nm in names && StartsWith(nm, PresentPrefix(wantV)) &&
         t == (LayerIndex(nm).GetOr(0), outputs[LastIndexOf(names, nm)]))) &&
      (forall nm :: nm in names && StartsWith(nm, PresentPrefix(wantV)) ==>
         (LayerIndex(nm).GetOr(0), outputs[LastIndexOf(names, nm)]) in tags) &&
      LayerSorted(SortByLayer(tags)) && multiset(SortByLayer(tags)) == multiset(tags) &&
      (forall k :: WithLayer(SortByLayer(tags), k) == WithLayer(tags, k))
  {
    var outs := outputs[..|names|];
    var m := OutMap(names, outs);
    var tags := PresentTags(m, wantV, |m|);
    UnpackLayersCount(names, outs, wantV);
    forall t | t in tags
      ensures exists nm :: (nm in names && StartsWith(nm, PresentPrefix(wantV)) &&
        t == (LayerIndex(nm).GetOr(0), outputs[LastIndexOf(names, nm)]))
    {
      UnpackLayersSound(names, outs, wantV, t);
      var nm :| nm in names && StartsWith(nm, PresentPrefix(wantV)) &&
        t == (LayerIndex(nm).GetOr(0), outs[LastIndexOf(names, nm)]);
      assert outs[LastIndexOf(names, nm)] == outputs[LastIndexOf(names, nm)];
    }
    forall nm | nm in names && StartsWith(nm, PresentPrefix(wantV))
      ensures (LayerIndex(nm).GetOr(0), outputs[LastIndexOf(names, nm)]) in tags
    {
      UnpackLayersComplete(names, outs, wantV, nm);
      assert outs[LastIndexOf(names, nm)] == outputs[LastIndexOf(names, nm)];
    }
    SortByLayerSorted(tags);
    SortByLayerPermutes(tags);
    forall k
      ensures WithLayer(SortByLayer(tags), k) == WithLayer(tags, k)
    {
      SortByLayerStable(tags, k);
    }
  }

  lemma PresentTagsStep(items: seq<Entry>, i: nat)
    requires i < |items|
    ensures var nm := items[i].0;
      var tag: Tagged := (LayerIndex(nm).GetOr(0), items[i].1);
      if StartsWith(nm, "present_k_layer_") then
        PresentTags(items, false, i + 1) == PresentTags(items, false, i) + [tag] &&
        PresentTags(items, true, i + 1) == PresentTags(items, true, i)
      else if StartsWith(nm, "present_v_layer_") then
        PresentTags(items, false, i + 1) == PresentTags(items, false, i) &&
        PresentTags(items, true, i + 1) == PresentTags(items, true, i) + [tag]
      else
        PresentTags(items, false, i + 1) == PresentTags(items, false, i) &&
        PresentTags(items, true, i + 1) == PresentTags(items, true, i)
  {
  }

  /** The tagged arrays sorted by layer, or None when there are none. */
  function SortedOrNone(tags: seq<Tagged>): Option<seq<Tensor>>
  {
    if tags == [] then None else Some(Arrays(SortByLayer(tags)))
  }

  /** The unpacked outputs of one stage run. */
  function UnpackSpec(names: seq<string>, outputs: seq<Tensor>, prevYEmb: Option<Tensor>): StageOutputs
    requires |outputs| >= |names|
  {
    var m := OutMap(names, outputs[..|names|]);
    StageOutputs(
      Get(m, "y", if |outputs| > 0 then Some(outputs[0]) else None),
      Get(m, "y_emb", prevYEmb),
      SortedOrNone(PresentTags(m, false, |m|)),
      SortedOrNone(PresentTags(m, true, |m|)),
      Lookup(m, "k"), Lookup(m, "v"), Lookup(m, "logits"), Lookup(m, "samples"))
  }

  /**
   * `_unpack_stage_outputs`: the outputs by name, `y` defaulting to the first
   * output, `y_emb` to the previous embedding, and the `present_*_layer_*`
   * outputs gathered by a scan of the dict and sorted by layer number.
   */
  method UnpackStageOutputs(names: seq<string>, outputs: seq<Tensor>, prevYEmb: Option<Tensor>)
    returns (u: StageOutputs)
    requires |outputs| >= |names|
    ensures u == UnpackSpec(names, outputs, prevYEmb)
  {
    var outMap := OutMap(names, outputs[..|names|]);
    var y := Get(outMap, "y", if |outputs| > 0 then Some(outputs[0]) else None);
    var yEmb := Get(outMap, "y_emb", prevYEmb);
    var kAgg, vAgg := Lookup(outMap, "k"), Lookup(outMap, "v");
    var presK: seq<Tagged>, presV: seq<Tagged> := [], [];
    for i := 0 to |outMap|
      invariant presK == PresentTags(outMap, false, i)
      invariant presV == PresentTags(outMap, true, i)
    {
      var (nm, arr) := outMap[i];
      PresentTagsStep(outMap, i);
      if StartsWith(nm, "present_k_layer_") {
        var li := LayerIndex(nm).GetOr(0);
        presK := presK + [(li, arr)];
      } else if StartsWith(nm, "present_v_layer_") {
        var li := LayerIndex(nm).GetOr(0);
        presV := presV + [(li, arr)];
      }
    }
    u := StageOutputs(y, yEmb, SortedOrNone(presK), SortedOrNone(presV), kAgg, vAgg, Lookup(outMap, "logits"), Lookup(outMap, "samples"));
  }

  /**
   * The single-valued outputs as unpacked: each is the output declared under
   * its name (at its last declaration); `y` falls back to the first output
   * and `y_emb` to the previous embedding; `k`, `v`, `logits` and `samples`
   * are None when not declared.
   */
  lemma UnpackByName(names: seq<string>, outputs: seq<Tensor>, prevYEmb: Option<Tensor>)
    requires |outputs| >= |names|
    ensures var u := UnpackSpec(names, outputs, prevYEmb);
      u.y == (if "y" in names then Some(outputs[LastIndexOf(names, "y")])
              else if |outputs| > 0 then Some(outputs[0]) else None) &&
      u.yEmb == (if "y_emb" in names then Some(outputs[LastIndexOf(names, "y_emb")]) else prevYEmb) &&
      u.kAgg == (if "k" in names then Some(outputs[LastIndexOf(names, "k")]) else None) &&
      u.vAgg == (if "v" in names then Some(outputs[LastIndexOf(names, "v")]) else None) &&
      u.logits == (if "logits" in names then Some(outputs[LastIndexOf(names, "logits")]) else None) &&
      u.samples == (if "samples" in names then Some(outputs[LastIndexOf(names, "samples")]) else None)
  {
    var declared := outputs[..|names|];
    OutMapLookup(names, declared, "y");
    OutMapLookup(names, declared, "y_emb");
    OutMapLookup(names, declared, "k");
    OutMapLookup(names, declared, "v");
    OutMapLookup(names, declared, "logits");
    OutMapLookup(names, declared, "samples");
  }

  // ---------------------------------------------------------------------------
  // Cache update and the stop test

  /**
   * The caches for the next step: new per-layer lists replace the old ones
   * and clear both aggregated tensors when both lists came back; otherwise
   * each aggregated tensor takes its new value when there is one. A cache is
   * never lost: a per-layer list is only replaced by a new list, and an
   * aggregated tensor is only dropped when the per-layer lists take over.
   */
  function UpdateCaches(c: Caches, u: StageOutputs): (r: Caches)
    ensures c.kLayers.Some? ==> r.kLayers.Some?
    ensures c.vLayers.Some? ==> r.vLayers.Some?
    ensures r.kLayers.Some? ==> r.kLayers == c.kLayers || r.kLayers == u.kLayers
    ensures r.vLayers.Some? ==> r.vLayers == c.vLayers || r.vLayers == u.vLayers
    ensures u.kLayers.Some? && u.vLayers.Some? ==>
      r.kLayers == u.kLayers && r.vLayers == u.vLayers && r.kAgg.None? && r.vAgg.None?
    ensures !(u.kLayers.Some? && u.vLayers.Some?) ==>
      (u.kAgg.Some? ==> r.kAgg == u.kAgg) && (u.kAgg.None? ==> r.kAgg == c.kAgg) &&
      (u.vAgg.Some? ==> r.vAgg == u.vAgg) && (u.vAgg.None? ==> r.vAgg == c.vAgg)
    ensures !(u.kLayers.Some? && u.vLayers.Some?) ==> r.kLayers == c.kLayers && r.vLayers == c.vLayers
  {
    if u.kLayers.Some? && u.vLayers.Some? then Caches(u.kLayers, u.vLayers, None, None)
    else Caches(c.kLayers, c.vLayers, if u.kAgg.Some? then u.kAgg else c.kAgg, if u.vAgg.Some? then u.vAgg else c.vAgg)
  }

  /** Does a sentinel show in the first element of `samples`? False when the read fails. */
  function SamplesSayStop(samples: Tensor): bool
  {
    match FirstElement(samples)
    case Some(v) => v >= EosThreshold
    case None => false
  }

  /** Does the argmax over the last position of `logits` reach the sentinel range? False when it fails. */
  function LogitsSayStop(logits: Tensor): bool
  {
    match LastPositionArgmax(logits)
    case Some(a) => a >= EosThreshold
    case None => false
  }

  /** Is the last element of `y` a sentinel? False when the read fails (no `y`, or no elements). */
  function TokensSayStop(y: Option<Tensor>): bool
  {
    match y
    case Some(t) => (match LastElement(t) case Some(v) => v >= EosThreshold case None => false)
    case None => false
  }

  /** The end-of-sequence test: `samples` if present, else `logits` if present, else the last token. */
  function StopDecision(samples: Option<Tensor>, logits: Option<Tensor>, y: Option<Tensor>): bool
  {
    if samples.Some? then SamplesSayStop(samples.value)
    else if logits.Some? then LogitsSayStop(logits.value)
    else TokensSayStop(y)
  }

  /**
   * Exactly one tier decides, and a failed read at that tier means "do not
   * stop" rather than a fall-through: when `samples` is present the other
   * two inputs do not matter, and when only `logits` is present the tokens
   * do not matter.
   */
  lemma StopDecidedByOneTier(samples: Option<Tensor>, logits: Option<Tensor>, y: Option<Tensor>,
                             logits': Option<Tensor>, y': Option<Tensor>)
    ensures samples.Some? ==> StopDecision(samples, logits, y) == StopDecision(samples, logits', y')
    ensures samples.Some? ==>
      (StopDecision(samples, logits, y) <==> |samples.value.data| > 0 && samples.value.data[0] >= EosThreshold)
    ensures samples.None? && logits.Some? ==> StopDecision(samples, logits, y) == StopDecision(samples, logits, y')
    ensures samples.None? && logits.Some? ==>
      (StopDecision(samples, logits, y) <==>
        LastPositionArgmax(logits.value).Some? && LastPositionArgmax(logits.value).value >= EosThreshold)
    ensures samples.None? && logits.None? ==>
      (StopDecision(samples, logits, y) <==> y.Some? && |y.value.data| > 0 && y.value.data[|y.value.data| - 1] >= EosThreshold)
  {
  }

  /**
   * The logits tier reads the first position of the largest score among the
   * last position's scores: it stops exactly when that position is at or above
   * the sentinel threshold.
   */
  lemma LogitsTierArgmax(logits: Tensor)
    requires LastPositionRow(logits).Some? && |LastPositionRow(logits).value| > 0
    ensures var row := LastPositionRow(logits).value;
      LogitsSayStop(logits) <==>
        exists a :: EosThreshold <= a < |row| && (forall j :: 0 <= j < |row| ==> row[j] <= row[a]) &&
          (forall j :: 0 <= j < a ==> row[j] < row[a])
  {
    var row := LastPositionRow(logits).value;
    var a := Argmax(row);
    forall b | 0 <= b < |row| && (forall j :: 0 <= j < |row| ==> row[j] <= row[b]) &&
        (forall j :: 0 <= j < b ==> row[j] < row[b])
      ensures b == a
    {
      assert row[a] == row[b];
    }
  }
}
