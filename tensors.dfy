/**
 * Dense row-major arrays, as numpy holds them, and the handful of numpy
 * operations the decoder applies to them: splitting along the leading axis,
 * reading the first or last element, the argmax over the last position of a
 * logits tensor, the in-place write `y[0, -1] = 0`, the slices `y[:, -idx:]`
 * and `t[..., :c]`, and `np.expand_dims(t, axis=0)`.
 *
 * Element values are integers: token ids are exact; the floats of feature,
 * cache and logits tensors are represented by integer stand-ins, of which
 * only the order matters (for argmax).
 */
module Tensors {
  import opened Wrappers

  /** Token ids at or above this value are end-of-sequence sentinels. */
  const EosThreshold: int := 1024

  /** Number of elements of an array of the given shape. */
  function Prod(shape: seq<nat>): nat
  {
    if shape == [] then 1 else shape[0] * Prod(shape[1..])
  }

  datatype RawTensor = RawTensor(shape: seq<nat>, data: seq<int>)

  /** An array: `data` lists its elements in C order, one per index of `shape`. */
  type Tensor = t: RawTensor | |t.data| == Prod(t.shape) witness RawTensor([], [0])

  function Zeros(n: nat): (z: seq<int>)
    ensures |z| == n && forall i :: 0 <= i < n ==> z[i] == 0
  {
    seq(n, _ => 0)
  }

  lemma ProdCons(x: nat, s: seq<nat>)
    ensures Prod([x] + s) == x * Prod(s)
  {
    assert ([x] + s)[1..] == s;
  }

  lemma {:induction false} ProdAppend(a: seq<nat>, b: seq<nat>)
    ensures Prod(a + b) == Prod(a) * Prod(b)
  {
    if a == [] {
      assert a + b == b;
    } else {
      assert (a + b)[1..] == a[1..] + b;
      ProdAppend(a[1..], b);
      assert Prod(a + b) == a[0] * (Prod(a[1..]) * Prod(b));
    }
  }

  /** The element count of an array of two or more axes, split as rows, columns and inner block. */
  lemma LeadingTwoAxes(shape: seq<nat>)
    requires |shape| >= 2
    ensures Prod(shape) == shape[0] * (shape[1] * Prod(shape[2..]))
  {
    assert shape == [shape[0]] + ([shape[1]] + shape[2..]);
    ProdCons(shape[0], [shape[1]] + shape[2..]);
    ProdCons(shape[1], shape[2..]);
  }

  /** The element count split before the last two axes. */
  lemma LastTwoAxes(shape: seq<nat>)
    requires |shape| >= 2
    ensures Prod(shape) == Prod(shape[..|shape| - 2]) * (shape[|shape| - 2] * shape[|shape| - 1])
  {
    var k := |shape|;
    assert shape == shape[..k - 2] + [shape[k - 2], shape[k - 1]];
    ProdAppend(shape[..k - 2], [shape[k - 2], shape[k - 1]]);
    ProdCons(shape[k - 2], [shape[k - 1]]);
    ProdCons(shape[k - 1], []);
  }

  /** The element count split at the last axis: rows of `shape[k-1]` elements. */
  lemma LastAxis(shape: seq<nat>)
    requires |shape| >= 1
    ensures Prod(shape) == Prod(shape[..|shape| - 1]) * shape[|shape| - 1]
  {
    var k := |shape|;
    assert shape == shape[..k - 1] + [shape[k - 1]];
    ProdAppend(shape[..k - 1], [shape[k - 1]]);
    ProdCons(shape[k - 1], []);
  }

  lemma MulLe(a: nat, b: nat, c: nat)
    requires a <= b
    ensures a * c <= b * c
  {
  }

  lemma MulSucc(a: nat, c: nat)
    ensures a * c + c == (a + 1) * c
  {
  }

  lemma MulSub(a: nat, b: nat, c: nat)
    requires b <= a
    ensures a * c - b * c == (a - b) * c
  {
  }

  // ---------------------------------------------------------------------------
  // Blocks of a flat array

  /**
   * Of `count` consecutive blocks of `width` elements, the positions `from`
   * up to `to` of each block, concatenated in block order.
   */
  function Gather(data: seq<int>, count: nat, width: nat, from: nat, to: nat): (r: seq<int>)
    requires from <= to <= width && count * width <= |data|
    ensures |r| == count * (to - from)
    decreases count
  {
    if count == 0 then []
    else
      MulSucc(count - 1, width);
      MulSucc(count - 1, to - from);
      Gather(data, count - 1, width, from, to) + data[(count - 1) * width + from .. (count - 1) * width + to]
  }

  lemma GatherOne(data: seq<int>, width: nat, from: nat, to: nat)
    requires from <= to <= width <= |data|
    ensures Gather(data, 1, width, from, to) == data[from..to]
  {
  }

  // ---------------------------------------------------------------------------
  // np.split along axis 0

  /** Elements in each of the `n` equal slices of `t` along its leading axis. */
  function SliceLen(t: Tensor, n: nat): nat
    requires n > 0 && |t.shape| > 0
  {
    (t.shape[0] / n) * Prod(t.shape[1..])
  }

  lemma SliceBounds(t: Tensor, n: nat, i: nat)
    requires n > 0 && |t.shape| > 0 && t.shape[0] % n == 0 && i < n
    ensures i * SliceLen(t, n) + SliceLen(t, n) == (i + 1) * SliceLen(t, n) <= |t.data|
    ensures n * SliceLen(t, n) == |t.data|
  {
    var d, p := t.shape[0], Prod(t.shape[1..]);
    var q := d / n;
    assert d == n * q;
    assert |t.data| == d * p;
    calc {
      n * SliceLen(t, n);
      n * (q * p);
      (n * q) * p;
      d * p;
    }
    MulSucc(i, q * p);
    MulLe(i + 1, n, q * p);
  }

  /** The i-th of the `n` equal slices of `t` along its leading axis. */
  function Slice0(t: Tensor, n: nat, i: nat): (s: Tensor)
    requires n > 0 && |t.shape| > 0 && t.shape[0] % n == 0 && i < n
    ensures s.shape == [t.shape[0] / n] + t.shape[1..]
    ensures s.data == t.data[i * SliceLen(t, n) .. (i + 1) * SliceLen(t, n)]
  {
    var c := SliceLen(t, n);
    SliceBounds(t, n, i);
    ProdCons(t.shape[0] / n, t.shape[1..]);
    RawTensor([t.shape[0] / n] + t.shape[1..], t.data[i * c .. (i + 1) * c])
  }

  /**
   * `np.split(t, n, axis=0)`: `n` equal slices along the leading axis; None
   * where numpy raises (a 0-d array, or a leading axis `n` does not divide).
   */
  function Split0(t: Tensor, n: nat): (r: Option<seq<Tensor>>)
    requires n > 0
    ensures r.Some? <==> |t.shape| > 0 && t.shape[0] % n == 0
    ensures r.Some? ==> |r.value| == n
    ensures r.Some? ==> forall i :: 0 <= i < n ==> r.value[i].shape == [t.shape[0] / n] + t.shape[1..]
  {
    if |t.shape| == 0 || t.shape[0] % n != 0 then None
    else Some(seq(n, i requires 0 <= i < n => Slice0(t, n, i)))
  }

  /** The elements of a list of arrays, one array after another. */
  function Flatten(parts: seq<Tensor>): seq<int>
  {
    if parts == [] then [] else Flatten(parts[..|parts| - 1]) + parts[|parts| - 1].data
  }

  lemma {:induction false} SplitPrefix(t: Tensor, n: nat, j: nat)
    requires n > 0 && Split0(t, n).Some? && j <= n
    ensures j * SliceLen(t, n) <= |t.data|
    ensures Flatten(Split0(t, n).value[..j]) == t.data[..j * SliceLen(t, n)]
  {
    var parts, c := Split0(t, n).value, SliceLen(t, n);
    if j == 0 {
      assert parts[..0] == [];
    } else {
      SplitPrefix(t, n, j - 1);
      SliceBounds(t, n, j - 1);
      assert parts[..j][..j - 1] == parts[..j - 1];
      assert parts[j - 1].data == t.data[(j - 1) * c .. j * c];
      assert t.data[..j * c] == t.data[..(j - 1) * c] + t.data[(j - 1) * c .. j * c];
    }
  }

  /** Splitting loses nothing: the slices, put back in order, are the original elements. */
  lemma SplitJoin(t: Tensor, n: nat)
    requires n > 0 && Split0(t, n).Some?
    ensures Flatten(Split0(t, n).value) == t.data
  {
    var parts := Split0(t, n).value;
    SplitPrefix(t, n, n);
    SliceBounds(t, n, 0);
    assert parts[..n] == parts;
  }

  // ---------------------------------------------------------------------------
  // Element reads used by the stop test

  /** `t.flat[0]`; None where numpy raises (no elements). */
  function FirstElement(t: Tensor): Option<int>
  {
    if |t.data| == 0 then None else Some(t.data[0])
  }

  /** `t.flat[-1]`; None where numpy raises (no elements). */
  function LastElement(t: Tensor): Option<int>
  {
    if |t.data| == 0 then None else Some(t.data[|t.data| - 1])
  }

  /** `np.argmax` of a flat, non-empty sequence: the first position holding the maximum. */
  function Argmax(s: seq<int>): (r: nat)
    requires |s| > 0
    ensures r < |s|
    ensures forall j :: 0 <= j < |s| ==> s[j] <= s[r]
    ensures forall j :: 0 <= j < r ==> s[j] < s[r]
  {
    if |s| == 1 then 0
    else
      var r' := Argmax(s[..|s| - 1]);
      if s[|s| - 1] > s[r'] then |s| - 1 else r'
  }

  /**
   * `t[..., -1, :]` flattened in C order; None where numpy raises (fewer
   * than two axes, or an empty position axis).
   */
  function LastPositionRow(t: Tensor): (r: Option<seq<int>>)
    ensures r.Some? <==> |t.shape| >= 2 && t.shape[|t.shape| - 2] > 0
    ensures r.Some? ==> |r.value| == Prod(t.shape[..|t.shape| - 2]) * t.shape[|t.shape| - 1]
  {
    if |t.shape| < 2 || t.shape[|t.shape| - 2] == 0 then None
    else
      var k := |t.shape|;
      var lead, pos, width := Prod(t.shape[..k - 2]), t.shape[k - 2], t.shape[k - 1];
      LastTwoAxes(t.shape);
      MulSucc(pos - 1, width);
      Some(Gather(t.data, lead, pos * width, (pos - 1) * width, pos * width))
  }

  /** Gathered element v of block b is element `from + v` of block b of the source. */
  lemma {:induction false} GatherAt(data: seq<int>, count: nat, width: nat, from: nat, to: nat, b: nat, v: nat)
    requires from <= to <= width && count * width <= |data|
    requires b < count && v < to - from
    ensures b * (to - from) + v < count * (to - from)
    ensures b * width + from + v < |data|
    ensures Gather(data, count, width, from, to)[b * (to - from) + v] == data[b * width + from + v]
    decreases count
  {
    var w := to - from;
    MulSucc(count - 1, width);
    MulSucc(count - 1, w);
    MulSucc(b, w);
    MulSucc(b, width);
    MulLe(b + 1, count, w);
    MulLe(b + 1, count, width);
    if b < count - 1 {
      MulLe(b + 1, count - 1, w);
      GatherAt(data, count - 1, width, from, to, b, v);
    } else {
      assert |Gather(data, count - 1, width, from, to)| == b * w;
    }
  }

  /** Of `lead` blocks of `pos` rows of `width`, the gathered last rows: element v of block b. */
  lemma GatherLastRowAt(data: seq<int>, lead: nat, pos: nat, width: nat, b: nat, v: nat)
    requires pos > 0 && lead * (pos * width) <= |data| && b < lead && v < width
    ensures (pos - 1) * width <= pos * width
    ensures b * width + v < lead * width
    ensures (b * pos + pos - 1) * width + v < |data|
    ensures Gather(data, lead, pos * width, (pos - 1) * width, pos * width)[b * width + v] ==
      data[(b * pos + pos - 1) * width + v]
  {
    LastRowArith(lead, pos, width, b, v);
    GatherAt(data, lead, pos * width, (pos - 1) * width, pos * width, b, v);
  }

  /** The index arithmetic of `GatherLastRowAt`. */
  lemma LastRowArith(lead: nat, pos: nat, width: nat, b: nat, v: nat)
    requires pos > 0 && b < lead && v < width
    ensures (pos - 1) * width <= pos * width && pos * width - (pos - 1) * width == width
    ensures b * width + v < lead * width
    ensures b * (pos * width) + (pos - 1) * width == (b * pos + pos - 1) * width
  {
    MulSucc(pos - 1, width);
    MulSucc(b, width);
    MulLe(b + 1, lead, width);
    assert b * (pos * width) == (b * pos) * width;
    MulSucc(b * pos, width);
  }

  /**
   * Element v of the row for leading index b is the element at position
   * `T - 1` of the position axis, column v, of that leading index: row
   * `b * T + T - 1` of the array viewed as `(lead * T) x V`.
   */
  lemma LastPositionRowAt(t: Tensor, b: nat, v: nat, i: nat, j: nat)
    requires |t.shape| >= 2 && t.shape[|t.shape| - 2] > 0
    requires b < Prod(t.shape[..|t.shape| - 2]) && v < t.shape[|t.shape| - 1]
    requires i == b * t.shape[|t.shape| - 1] + v
    requires j == (b * t.shape[|t.shape| - 2] + t.shape[|t.shape| - 2] - 1) * t.shape[|t.shape| - 1] + v
    ensures LastPositionRow(t).Some? && i < |LastPositionRow(t).value| && j < |t.data|
    ensures LastPositionRow(t).value[i] == t.data[j]
  {
    var k := |t.shape|;
    LastPositionRowIsGather(t, Prod(t.shape[..k - 2]), t.shape[k - 2], t.shape[k - 1]);
    GatherLastRowAt(t.data, Prod(t.shape[..k - 2]), t.shape[k - 2], t.shape[k - 1], b, v);
  }

  /** The row, as the last of the `pos` rows of each of the `lead` blocks. */
  lemma LastPositionRowIsGather(t: Tensor, lead: nat, pos: nat, width: nat)
    requires |t.shape| >= 2 && lead == Prod(t.shape[..|t.shape| - 2])
    requires pos == t.shape[|t.shape| - 2] > 0 && width == t.shape[|t.shape| - 1]
    ensures (pos - 1) * width <= pos * width && lead * (pos * width) <= |t.data|
    ensures LastPositionRow(t) == Some(Gather(t.data, lead, pos * width, (pos - 1) * width, pos * width))
  {
    LastTwoAxes(t.shape);
    MulSucc(pos - 1, width);
  }

  /** For `[1, T, V]` logits the row is the last of the T rows of V scores. */
  lemma LastPositionRowOfBatch(t: Tensor)
    requires |t.shape| == 3 && t.shape[0] == 1 && t.shape[1] > 0
    ensures var pos, width := t.shape[1], t.shape[2];
      pos * width == |t.data| &&
      LastPositionRow(t).value == t.data[(pos - 1) * width .. pos * width]
  {
    var pos, width := t.shape[1], t.shape[2];
    assert t.shape[..1] == [1];
    assert Prod([1]) == 1 by {
      ProdCons(1, []);
    }
    LastTwoAxes(t.shape);
    MulSucc(pos - 1, width);
    GatherOne(t.data, pos * width, (pos - 1) * width, pos * width);
  }

  /** `int(np.argmax(t[..., -1, :]))`; None where numpy raises (argmax of nothing included). */
  function LastPositionArgmax(t: Tensor): Option<nat>
  {
    match LastPositionRow(t)
    case None => None
    case Some(row) => if |row| == 0 then None else Some(Argmax(row))
  }

  // ---------------------------------------------------------------------------
  // The decoder's post-loop slicing

  /**
   * `y[0, -1] = 0`: the last column of the first leading row set to zero.
   * None where numpy raises (fewer than two axes, or an empty first or second axis).
   */
  function ZeroLastOfFirstRow(y: Tensor): (r: Option<Tensor>)
    ensures r.Some? <==> |y.shape| >= 2 && y.shape[0] > 0 && y.shape[1] > 0
    ensures r.Some? ==> r.value.shape == y.shape
    ensures r.Some? ==> var inner := Prod(y.shape[2..]);
      (y.shape[1] - 1) * inner + inner <= |y.data| &&
      (forall j :: 0 <= j < |y.data| ==>
        r.value.data[j] == if (y.shape[1] - 1) * inner <= j < y.shape[1] * inner then 0 else y.data[j])
  {
    if |y.shape| < 2 || y.shape[0] == 0 || y.shape[1] == 0 then None
    else
      var d1, inner := y.shape[1], Prod(y.shape[2..]);
      LeadingTwoAxes(y.shape);
      MulSucc(d1 - 1, inner);
      MulLe(1, y.shape[0], d1 * inner);
      Some(RawTensor(y.shape, y.data[..(d1 - 1) * inner] + Zeros(inner) + y.data[d1 * inner..]))
  }

  /** How many columns `y[:, -idx:]` keeps of `columns`: all when idx is 0, else the last min(idx, columns). */
  function KeptColumns(columns: nat, idx: nat): (m: nat)
    ensures m <= columns
    ensures idx > 0 ==> m == if idx < columns then idx else columns
    ensures idx == 0 ==> m == columns
  {
    if idx == 0 || idx > columns then columns else idx
  }

  /** `y[:, -idx:]`. */
  function TrailingColumns(y: Tensor, idx: nat): (r: Tensor)
    requires |y.shape| >= 2
    ensures r.shape == [y.shape[0], KeptColumns(y.shape[1], idx)] + y.shape[2..]
  {
    var d0, d1, inner := y.shape[0], y.shape[1], Prod(y.shape[2..]);
    var m := KeptColumns(d1, idx);
    LeadingTwoAxes(y.shape);
    LeadingTwoAxes([d0, m] + y.shape[2..]);
    assert ([d0, m] + y.shape[2..])[2..] == y.shape[2..];
    MulLe(d1 - m, d1, inner);
    MulSub(d1, d1 - m, inner);
    RawTensor([d0, m] + y.shape[2..], Gather(y.data, d0, d1 * inner, (d1 - m) * inner, d1 * inner))
  }

  /** `np.expand_dims(t, axis=0)`: a leading axis of size 1. */
  function ExpandDims0(t: Tensor): (r: Tensor)
    ensures r.shape == [1] + t.shape && r.data == t.data
  {
    ProdCons(1, t.shape);
    RawTensor([1] + t.shape, t.data)
  }

  // ---------------------------------------------------------------------------
  // The sentinel scrub applied to the decoder's result

  /** The first position holding a sentinel, if any. */
  function FirstSentinelPos(s: seq<int>): (r: Option<nat>)
    ensures r.Some? ==> r.value < |s| && s[r.value] >= EosThreshold
    ensures r.Some? ==> forall j :: 0 <= j < r.value ==> s[j] < EosThreshold
    ensures r.None? ==> forall j :: 0 <= j < |s| ==> s[j] < EosThreshold
  {
    if s == [] then None
    else if s[0] >= EosThreshold then Some(0)
    else match FirstSentinelPos(s[1..])
      case None => None
      case Some(p) => Some(p + 1)
  }

  /**
   * `np.where(t >= 1024)[-1][0]`: the last-axis coordinate of the first
   * sentinel in C order, if there is any sentinel.
   */
  function FirstSentinelColumn(t: Tensor): (r: Option<nat>)
    requires |t.shape| >= 1
    ensures r.Some? ==> r.value < t.shape[|t.shape| - 1]
    ensures r.None? <==> forall j :: 0 <= j < |t.data| ==> t.data[j] < EosThreshold
  {
    match FirstSentinelPos(t.data)
    case None => None
    case Some(p) =>
      LastAxis(t.shape);
      Some(p % t.shape[|t.shape| - 1])
  }

  /** `t[..., :c]`: the first c entries of every last-axis row. */
  function TruncateLastAxis(t: Tensor, c: nat): (r: Tensor)
    requires |t.shape| >= 1 && c <= t.shape[|t.shape| - 1]
    ensures r.shape == t.shape[..|t.shape| - 1] + [c]
  {
    var k := |t.shape|;
    var lead := t.shape[..k - 1];
    LastAxis(t.shape);
    LastAxis(lead + [c]);
    assert (lead + [c])[..k - 1] == lead;
    RawTensor(lead + [c], Gather(t.data, Prod(lead), t.shape[k - 1], 0, c))
  }
}
