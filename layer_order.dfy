/**
 * Ordering per-layer cache arrays by layer number. Both the first-stage
 * collection and the stage-output unpacking tag each array with a layer
 * number and apply Python's stable `sort(key=lambda x: x[0])`; this module
 * gives that sort and proves what it promises: the result is ordered by
 * layer, is a permutation of its input, and keeps arrays of equal layer
 * number in their original order.
 */
module LayerOrder {
  import opened Tensors

  /** An array tagged with the layer number it was filed under. */
  type Tagged = (int, Tensor)

  /** Insert p before the first element whose layer is not smaller (so after every smaller one). */
  function InsertByLayer(p: Tagged, s: seq<Tagged>): (r: seq<Tagged>)
    ensures |r| == |s| + 1
    ensures multiset(r) == multiset(s) + multiset{p}
  {
    if s == [] || p.0 <= s[0].0 then [p] + s
    else
      var rest := InsertByLayer(p, s[1..]);
      assert s == [s[0]] + s[1..];
      [s[0]] + rest
  }

  /** Python's stable `list.sort(key=lambda x: x[0])`, as an insertion sort. */
  function SortByLayer(s: seq<Tagged>): (r: seq<Tagged>)
    ensures |r| == |s|
  {
    if s == [] then [] else InsertByLayer(s[0], SortByLayer(s[1..]))
  }

  /** The arrays of a tagged list, tags dropped: `[arr for _, arr in layers]`. */
  function Arrays(s: seq<Tagged>): (r: seq<Tensor>)
    ensures |r| == |s| && forall i :: 0 <= i < |s| ==> r[i] == s[i].1
  {
    if s == [] then [] else [s[0].1] + Arrays(s[1..])
  }

  ghost predicate LayerSorted(s: seq<Tagged>)
  {
    forall i, j :: 0 <= i < j < |s| ==> s[i].0 <= s[j].0
  }

  /** The elements filed under layer k, in order. */
  function WithLayer(s: seq<Tagged>, k: int): seq<Tagged>
  {
    if s == [] then [] else (if s[0].0 == k then [s[0]] else []) + WithLayer(s[1..], k)
  }

  lemma {:induction false} InsertKeepsSorted(p: Tagged, s: seq<Tagged>)
    requires LayerSorted(s)
    ensures LayerSorted(InsertByLayer(p, s))
    ensures forall i :: 0 <= i < |InsertByLayer(p, s)| ==>
      InsertByLayer(p, s)[i] == p || InsertByLayer(p, s)[i] in s
  {
    if s != [] && p.0 > s[0].0 {
      InsertKeepsSorted(p, s[1..]);
      var rest := InsertByLayer(p, s[1..]);
      forall i | 0 <= i < |rest|
        ensures s[0].0 <= rest[i].0
      {
        if rest[i] != p {
          var j :| 0 <= j < |s[1..]| && s[1..][j] == rest[i];
          assert s[j + 1] == rest[i];
        }
      }
    }
  }

  /** The result of the sort is ordered by layer number. */
  lemma {:induction false} SortByLayerSorted(s: seq<Tagged>)
    ensures LayerSorted(SortByLayer(s))
  {
    if s != [] {
      SortByLayerSorted(s[1..]);
      InsertKeepsSorted(s[0], SortByLayer(s[1..]));
    }
  }

  /** The result of the sort holds the same tagged arrays, as many times each. */
  lemma {:induction false} SortByLayerPermutes(s: seq<Tagged>)
    ensures multiset(SortByLayer(s)) == multiset(s)
  {
    if s != [] {
      SortByLayerPermutes(s[1..]);
      assert s == [s[0]] + s[1..];
    }
  }

  lemma {:induction false} WithLayerInsert(p: Tagged, s: seq<Tagged>, k: int)
    ensures WithLayer(InsertByLayer(p, s), k) == (if p.0 == k then [p] else []) + WithLayer(s, k)
  {
    if s != [] && p.0 > s[0].0 {
      WithLayerInsert(p, s[1..], k);
      assert [s[0]] + InsertByLayer(p, s[1..]) == InsertByLayer(p, s);
      assert ([s[0]] + InsertByLayer(p, s[1..]))[1..] == InsertByLayer(p, s[1..]);
    } else {
      assert ([p] + s)[1..] == s;
    }
  }

  /** The sort is stable: arrays filed under the same layer number keep their relative order. */
  lemma {:induction false} SortByLayerStable(s: seq<Tagged>, k: int)
    ensures WithLayer(SortByLayer(s), k) == WithLayer(s, k)
  {
    if s != [] {
      SortByLayerStable(s[1..], k);
      WithLayerInsert(s[0], SortByLayer(s[1..]), k);
    }
  }
}
