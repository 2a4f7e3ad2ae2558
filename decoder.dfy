/**
 * `LunaVoxEngine.t2s_cpu` (Inference.py:76-261): the encoder run, the
 * first-stage run and the reconciliation of its caches, then at most 500
 * stage-decoder steps, each preceded by a read of the cancel flag, and the
 * final rewrite and slicing of the token row.
 */
module Decoder {
  import opened Wrappers
  import opened Tensors
  import opened Names
  import opened Sessions
  import opened LayerOrder
  import opened FirstStage
  import opened StageStep

  /** The loop runs for `idx in range(0, 500)`. */
  const MaxSteps: nat := 500

  /** The three graphs `t2s_cpu` drives. */
  datatype Graphs = Graphs(encoder: Session, firstStage: Session, stage: Session)

  /** The encoder inputs. */
  datatype T2SInputs = T2SInputs(refSeq: Tensor, refBert: Tensor, textSeq: Tensor, textBert: Tensor, sslContent: Tensor)

  /** The values the loop reassigns on every step. */
  datatype DecodeState = DecodeState(y: Option<Tensor>, yEmb: Option<Tensor>, caches: Caches)

  function EncoderFeed(inp: T2SInputs): Feed
  {
    map["ref_seq" := Some(inp.refSeq), "text_seq" := Some(inp.textSeq), "ref_bert" := Some(inp.refBert),
        "text_bert" := Some(inp.textBert), "ssl_content" := Some(inp.sslContent)]
  }

  function FirstStageFeed(x: Tensor, prompts: Tensor): Feed
  {
    map["x" := Some(x), "prompts" := Some(prompts)]
  }

  /** A collected per-layer list, or None when it is empty (`if not k_layers: k_layers = None`). */
  function NonEmpty(layers: seq<Tensor>): (r: Option<seq<Tensor>>)
    ensures r.Some? <==> |layers| > 0
    ensures r.Some? ==> r.value == layers
  {
    if layers == [] then None else Some(layers)
  }

  /** What `_collect_layers(prefix)` returns. */
  function Collected(names: seq<string>, outputs: seq<Tensor>, prefix: string): seq<Tensor>
    requires |outputs| == |names|
  {
    Arrays(SortByLayer(TaggedLayers(names, outputs, LayerTags(names), prefix, |names|)))
  }

  /**
   * The state before the first step: `y`, `k`, `v` and `y_emb` resolved from
   * the first-stage outputs, the per-layer lists collected, and each split
   * from its aggregated tensor when the stage decoder declares per-layer
   * inputs and no list came back. The aggregated tensors are kept as well.
   */
  function InitialState(fsNames: seq<string>, fsOut: seq<Tensor>, stageIn: seq<string>): DecodeState
    requires |fsOut| == |fsNames|
  {
    var kAgg, vAgg := FsGet(fsNames, fsOut, "k", 1), FsGet(fsNames, fsOut, "v", 2);
    var n := DeclaredLayers(stageIn);
    DecodeState(
      FsGet(fsNames, fsOut, "y", 0), FsGet(fsNames, fsOut, "y_emb", 3),
      Caches(SplitIfExpected(n, NonEmpty(Collected(fsNames, fsOut, "present_k_layer_")), kAgg),
             SplitIfExpected(n, NonEmpty(Collected(fsNames, fsOut, "present_v_layer_")), vAgg),
             kAgg, vAgg))
  }

  /** `_collect_layers(prefix)` returns one array per output whose name carries the prefix. */
  lemma CollectedCount(names: seq<string>, outputs: seq<Tensor>, prefix: string)
    requires |outputs| == |names|
    ensures |Collected(names, outputs, prefix)| == CountPrefixed(names, prefix)
  {
    TaggedLayersCount(names, outputs, LayerTags(names), prefix, |names|);
    assert names[..|names|] == names;
  }

  /**
   * One per-layer cache as the decoder starts with it: the collected arrays
   * when the first stage returned any under the prefix; otherwise, when the
   * stage decoder declares n > 0 per-layer inputs and the aggregated tensor
   * exists, its n slices along axis 0 (None when the split raises), which
   * join back to it; otherwise no per-layer cache.
   */
  lemma ReconciledLayers(names: seq<string>, outputs: seq<Tensor>, prefix: string, n: nat, agg: Option<Tensor>)
    requires |outputs| == |names|
    ensures var r, np := SplitIfExpected(n, NonEmpty(Collected(names, outputs, prefix)), agg), CountPrefixed(names, prefix);
      (np > 0 ==> r == Some(Collected(names, outputs, prefix)) && |r.value| == np) &&
      (np == 0 && (n == 0 || agg.None?) ==> r.None?) &&
      (np == 0 && n > 0 && agg.Some? ==> (r.Some? <==> |agg.value.shape| > 0 && agg.value.shape[0] % n == 0)) &&
      (np == 0 && n > 0 && r.Some? ==> agg.Some? && |r.value| == n && Flatten(r.value) == agg.value.data)
  {
    CollectedCount(names, outputs, prefix);
  }

  /**
   * The decoder's starting caches: the aggregated `k` and `v` resolved by
   * name or position, and each per-layer cache reconciled as
   * `ReconciledLayers` describes, with n the number of per-layer inputs the
   * stage decoder declares.
   */
  lemma InitialCaches(fsNames: seq<string>, fsOut: seq<Tensor>, stageIn: seq<string>)
    requires |fsOut| == |fsNames|
    ensures var c, n := InitialState(fsNames, fsOut, stageIn).caches, DeclaredLayers(stageIn);
      c.kAgg == FsGet(fsNames, fsOut, "k", 1) && c.vAgg == FsGet(fsNames, fsOut, "v", 2) &&
      c.kLayers == SplitIfExpected(n, NonEmpty(Collected(fsNames, fsOut, "present_k_layer_")), c.kAgg) &&
      c.vLayers == SplitIfExpected(n, NonEmpty(Collected(fsNames, fsOut, "present_v_layer_")), c.vAgg)
    ensures var c, n := InitialState(fsNames, fsOut, stageIn).caches, DeclaredLayers(stageIn);
      CountPrefixed(fsNames, "present_k_layer_") == 0 && n > 0 && c.kLayers.Some? ==>
        c.kAgg.Some? && |c.kLayers.value| == n && Flatten(c.kLayers.value) == c.kAgg.value.data
    ensures var c, n := InitialState(fsNames, fsOut, stageIn).caches, DeclaredLayers(stageIn);
      CountPrefixed(fsNames, "present_v_layer_") == 0 && n > 0 && c.vLayers.Some? ==>
        c.vAgg.Some? && |c.vLayers.value| == n && Flatten(c.vLayers.value) == c.vAgg.value.data
    ensures var c := InitialState(fsNames, fsOut, stageIn).caches;
      (CountPrefixed(fsNames, "present_k_layer_") > 0 ==>
        c.kLayers.Some? && |c.kLayers.value| == CountPrefixed(fsNames, "present_k_layer_")) &&
      (CountPrefixed(fsNames, "present_v_layer_") > 0 ==>
        c.vLayers.Some? && |c.vLayers.value| == CountPrefixed(fsNames, "present_v_layer_"))
  {
    var n := DeclaredLayers(stageIn);
    ReconciledLayers(fsNames, fsOut, "present_k_layer_", n, FsGet(fsNames, fsOut, "k", 1));
    ReconciledLayers(fsNames, fsOut, "present_v_layer_", n, FsGet(fsNames, fsOut, "v", 2));
  }

  /**
   * One stage step: feed, run, unpack, update the caches and take the stop
   * decision. None where the run raises. A step never loses what it
   * carries: `y` survives whenever the stage declares an output (it falls
   * back to the first one), `y_emb` falls back to the previous embedding,
   * and a per-layer cache is only ever replaced by another.
   */
  function Step(stage: Session, xExample: Option<Tensor>, st: DecodeState): (r: Option<(DecodeState, bool)>)
    ensures r.Some? && |stage.outputNames| > 0 ==> r.value.0.y.Some?
    ensures r.Some? && st.yEmb.Some? ==> r.value.0.yEmb.Some?
    ensures r.Some? && st.caches.kLayers.Some? ==> r.value.0.caches.kLayers.Some?
    ensures r.Some? && st.caches.vLayers.Some? ==> r.value.0.caches.vLayers.Some?
  {
    match stage.run(StageFeed(stage.inputNames, st.y, st.yEmb, st.caches, xExample))
    case None => None
    case Some(outs) =>
      if |outs| < |stage.outputNames| then None   // `outputs_list[idx]` raises IndexError
      else
        var u := UnpackSpec(stage.outputNames, outs, st.yEmb);
        Some((DecodeState(u.y, u.yEmb, UpdateCaches(st.caches, u)), StopDecision(u.samples, u.logits, u.y)))
  }

  /** A step as a function value: the loop below holds for any step function. */
  type Stepper = DecodeState -> Option<(DecodeState, bool)>

  /** The stage decoder's step as a `Stepper`. */
  function StepOf(stage: Session, xExample: Option<Tensor>): Stepper
  {
    s => Step(stage, xExample, s)
  }

  /** `step` is the stage decoder's step on every state. */
  ghost predicate StepAgrees(step: Stepper, stage: Session, xExample: Option<Tensor>)
  {
    forall s {:trigger Step(stage, xExample, s)} :: step(s) == Step(stage, xExample, s)
  }

  lemma StepOfAgrees(stage: Session, xExample: Option<Tensor>)
    ensures StepAgrees(StepOf(stage, xExample), stage, xExample)
  {
  }

  /**
   * How the loop ends: the cancel flag was seen at the top of step `at`, the
   * run of step `at` raised, or the loop left through `break` or exhaustion
   * with `idx` as its last value.
   */
  datatype LoopEnd = Cancelled(at: nat) | Crashed(at: nat) | Finished(last: DecodeState, idx: nat)

  /** Stage runs attempted before the loop ended. */
  function StageRuns(e: LoopEnd): nat
  {
    match e
    case Cancelled(at) => at
    case Crashed(at) => at + 1
    case Finished(_, idx) => idx + 1
  }

  /**
   * The loop from step i on, where `cancelAt(k)` is the cancel flag as read at
   * the top of step k. Every ending lies within the 500 steps, a cancel
   * ending is at the first step whose flag read is set, and the decoder is
   * never run at or after that step.
   */
  function Loop(step: Stepper, cancelAt: nat -> bool, i: nat, st: DecodeState): (e: LoopEnd)
    requires i < MaxSteps
    ensures e.Cancelled? ==> i <= e.at < MaxSteps && cancelAt(e.at) && forall j :: i <= j < e.at ==> !cancelAt(j)
    ensures e.Crashed? ==> i <= e.at < MaxSteps && forall j :: i <= j <= e.at ==> !cancelAt(j)
    ensures e.Finished? ==> i <= e.idx < MaxSteps && forall j :: i <= j <= e.idx ==> !cancelAt(j)
    ensures StageRuns(e) <= MaxSteps
    decreases MaxSteps - i
  {
    if cancelAt(i) then Cancelled(i)
    else match step(st)
      case None => Crashed(i)
      case Some((next, stop)) =>
        if stop || i == MaxSteps - 1 then Finished(next, i) else Loop(step, cancelAt, i + 1, next)
  }

  /**
   * The state the loop holds n steps after holding `st`, when each of those
   * n steps returned a state and its stop test did not fire; None otherwise.
   */
  function After(step: Stepper, st: DecodeState, n: nat): Option<DecodeState>
    decreases n
  {
    if n == 0 then Some(st)
    else match step(st)
      case Some((next, false)) => After(step, next, n - 1)
      case _ => None
  }

  /**
   * The loop follows the trajectory of its states: it reaches the step where
   * it ends with every earlier step having returned a state without
   * stopping; a crash is a step whose run raises on the state held there,
   * and a finish is the step whose run, on the state held there, returns the
   * final state with the stop test fired, or the last of the 500 steps.
   */
  lemma {:induction false} LoopTrajectory(step: Stepper, cancelAt: nat -> bool, i: nat, st: DecodeState)
    requires i < MaxSteps
    ensures var e := Loop(step, cancelAt, i, st);
      match e
      case Cancelled(at) => After(step, st, at - i).Some?
      case Crashed(at) => After(step, st, at - i).Some? && step(After(step, st, at - i).value).None?
      case Finished(last, idx) =>
        After(step, st, idx - i).Some? &&
        var s := After(step, st, idx - i).value;
        step(s).Some? && step(s).value.0 == last && (step(s).value.1 || idx == MaxSteps - 1)
    decreases MaxSteps - i
  {
    if !cancelAt(i) && step(st).Some? {
      var (next, stop) := step(st).value;
      if !stop && i < MaxSteps - 1 {
        LoopTrajectory(step, cancelAt, i + 1, next);
        var e := Loop(step, cancelAt, i + 1, next);
        match e
        case Cancelled(at) =>
          assert After(step, st, at - i) == After(step, next, at - (i + 1));
        case Crashed(at) =>
          assert After(step, st, at - i) == After(step, next, at - (i + 1));
        case Finished(_, idx) =>
          assert After(step, st, idx - i) == After(step, next, idx - (i + 1));
      }
    }
  }

  lemma LoopCancelled(step: Stepper, cancelAt: nat -> bool, i: nat, st: DecodeState)
    requires i < MaxSteps && cancelAt(i)
    ensures Loop(step, cancelAt, i, st) == Cancelled(i)
  {
  }

  /** One step of the loop with the flag read clear: the step's run decides how the loop goes on. */
  lemma LoopAdvance(step: Stepper, cancelAt: nat -> bool, i: nat, st: DecodeState,
                    ok: bool, next: DecodeState, stop: bool)
    requires i < MaxSteps && !cancelAt(i)
    requires step(st) == if ok then Some((next, stop)) else None
    ensures !ok ==> Loop(step, cancelAt, i, st) == Crashed(i)
    ensures ok && (stop || i == MaxSteps - 1) ==> Loop(step, cancelAt, i, st) == Finished(next, i)
    ensures ok && !stop && i < MaxSteps - 1 ==> Loop(step, cancelAt, i, st) == Loop(step, cancelAt, i + 1, next)
  {
  }

  /**
   * `y[0, -1] = 0; return np.expand_dims(y[:, -idx:], axis=0)`; Raised where
   * the write fails (no `y`, fewer than two axes, or an empty leading axis).
   */
  function FinalTokens(y: Option<Tensor>, idx: nat): (r: Outcome<Tensor>)
    ensures !r.ReturnedNone?
    ensures r.Returned? <==> y.Some? && |y.value.shape| >= 2 && y.value.shape[0] > 0 && y.value.shape[1] > 0
    ensures r.Returned? ==>
      r.value.shape == [1, y.value.shape[0], KeptColumns(y.value.shape[1], idx)] + y.value.shape[2..]
  {
    match y
    case None => Raised
    case Some(t) =>
      match ZeroLastOfFirstRow(t)
      case None => Raised
      case Some(z) => Returned(ExpandDims0(TrailingColumns(z, idx)))
  }

  /**
   * For the `[1, n]` token row the decoder produces: the result is `[1, 1, m]`
   * with m the last min(idx, n) columns (all n when idx is 0), the tokens kept
   * as they were except the last, which is 0.
   */
  lemma FinalTokensOfRow(y: Tensor, idx: nat)
    requires y.shape == [1, |y.data|] && |y.data| > 0
    ensures var n, m := |y.data|, KeptColumns(|y.data|, idx);
      var r := FinalTokens(Some(y), idx);
      r.Returned? && r.value.shape == [1, 1, m] && 0 < m &&
      r.value.data == y.data[n - m..n - 1] + [0]
  {
    var n := |y.data|;
    var m := KeptColumns(n, idx);
    var zeroed := y.data[..n - 1] + [0];
    ZeroLastOfRow(y);
    var z := ZeroLastOfFirstRow(y).value;
    TrailingOfRow(z, idx);
    assert zeroed[n - m..n] == y.data[n - m..n - 1] + [0];
  }

  /** `y[0, -1] = 0` on a `[1, n]` row zeroes its last token. */
  lemma ZeroLastOfRow(y: Tensor)
    requires y.shape == [1, |y.data|] && |y.data| > 0
    ensures ZeroLastOfFirstRow(y).Some?
    ensures ZeroLastOfFirstRow(y).value.shape == y.shape
    ensures ZeroLastOfFirstRow(y).value.data == y.data[..|y.data| - 1] + [0]
  {
    var n := |y.data|;
    assert y.shape[2..] == [];
    var z := ZeroLastOfFirstRow(y).value;
    assert |z.data| == n;
    assert z.data == y.data[..n - 1] + [0];
  }

  /** `z[:, -idx:]` on a `[1, n]` row keeps its last m tokens. */
  lemma TrailingOfRow(z: Tensor, idx: nat)
    requires z.shape == [1, |z.data|]
    ensures var n, m := |z.data|, KeptColumns(|z.data|, idx);
      TrailingColumns(z, idx).shape == [1, m] && TrailingColumns(z, idx).data == z.data[n - m..n]
  {
    var n := |z.data|;
    var m := KeptColumns(n, idx);
    assert z.shape[2..] == [];
    var t := TrailingColumns(z, idx);
    assert t.data == Gather(z.data, 1, n * 1, (n - m) * 1, n * 1);
    GatherOne(z.data, n, n - m, n);
  }

  /** The loop's ending, or None where the encoder or first-stage run raises before it starts. */
  function T2SLoop(inp: T2SInputs, g: Graphs, cancelAt: nat -> bool): Option<LoopEnd>
    requires Conforms(g.firstStage)
  {
    match g.encoder.run(EncoderFeed(inp))
    case None => None
    case Some(enc) =>
      if |enc| != 2 then None
      else match g.firstStage.run(FirstStageFeed(enc[0], enc[1]))
        case None => None
        case Some(fs) =>
          var names := g.firstStage.outputNames;
          Some(Loop(StepOf(g.stage, FsGet(names, fs, "x_example", 4)), cancelAt, 0,
                    InitialState(names, fs, g.stage.inputNames)))
  }

  /**
   * What `t2s_cpu` does: Raised when a graph run raises, when the encoder
   * does not return exactly two arrays (`x, prompts = ...`), or when the
   * final write fails; None only when the cancel flag was read set at the top
   * of some step; otherwise the final token tensor.
   */
  function T2SSpec(inp: T2SInputs, g: Graphs, cancelAt: nat -> bool): (r: Outcome<Tensor>)
    requires Conforms(g.firstStage)
    ensures r.ReturnedNone? ==> exists k :: 0 <= k < MaxSteps && cancelAt(k)
    ensures r.Returned? ==> |r.value.shape| >= 3 && r.value.shape[0] == 1
    ensures T2SLoop(inp, g, cancelAt).None? ==> r.Raised?
  {
    match T2SLoop(inp, g, cancelAt)
    case None => Raised
    case Some(e) =>
      match e
      case Cancelled(_) => ReturnedNone
      case Crashed(_) => Raised
      case Finished(last, idx) => FinalTokens(last.y, idx)
  }

  /** Stage runs `t2s_cpu` makes: none when it fails before the loop. */
  function T2SStageRuns(inp: T2SInputs, g: Graphs, cancelAt: nat -> bool): nat
    requires Conforms(g.firstStage)
  {
    match T2SLoop(inp, g, cancelAt)
    case None => 0
    case Some(e) => StageRuns(e)
  }

  /**
   * The stage decoder runs at most 500 times, and when the call returns None
   * the decoder ran exactly once per step before the first flag read that
   * was set.
   */
  lemma {:induction false} StageRunsBounded(inp: T2SInputs, g: Graphs, cancelAt: nat -> bool)
    requires Conforms(g.firstStage)
    ensures T2SStageRuns(inp, g, cancelAt) <= MaxSteps
    ensures T2SSpec(inp, g, cancelAt).ReturnedNone? ==>
      var k := T2SStageRuns(inp, g, cancelAt);
      k < MaxSteps && cancelAt(k) && forall j :: 0 <= j < k ==> !cancelAt(j)
  {
    match T2SLoop(inp, g, cancelAt)
    case None =>
    case Some(e) =>
  }

  /**
   * There is no cancel check before the encoder: when the encoder or the
   * first stage raises, the call raises whatever the flag says.
   */
  lemma EncoderBeforeFlag(inp: T2SInputs, g: Graphs, cancelAt: nat -> bool, cancelAt': nat -> bool)
    requires Conforms(g.firstStage)
    requires g.encoder.run(EncoderFeed(inp)).None?
    ensures T2SSpec(inp, g, cancelAt) == T2SSpec(inp, g, cancelAt') == Raised
  {
  }

  /**
   * Lines 125-158 of `t2s_cpu`: the first-stage outputs resolved by name or
   * position, the per-layer lists collected, and the aggregated caches split
   * when the stage decoder needs per-layer inputs that did not come back.
   */
  method PrepareState(fsNames: seq<string>, fsOutputs: seq<Tensor>, stageIn: seq<string>)
    returns (st: DecodeState, xExample: Option<Tensor>)
    requires |fsOutputs| == |fsNames|
    ensures st == InitialState(fsNames, fsOutputs, stageIn)
    ensures xExample == FsGet(fsNames, fsOutputs, "x_example", 4)
  {
    var y := FsGet(fsNames, fsOutputs, "y", 0);
    var kAgg := FsGet(fsNames, fsOutputs, "k", 1);
    var vAgg := FsGet(fsNames, fsOutputs, "v", 2);
    var yEmb := FsGet(fsNames, fsOutputs, "y_emb", 3);
    xExample := FsGet(fsNames, fsOutputs, "x_example", 4);
    var kl := CollectLayers(fsNames, fsOutputs, "present_k_layer_");
    var vl := CollectLayers(fsNames, fsOutputs, "present_v_layer_");
    var kLayers: Option<seq<Tensor>> := Some(kl);
    var vLayers: Option<seq<Tensor>> := Some(vl);
    if kl == [] {
      kLayers := None;
    }
    if vl == [] {
      vLayers := None;
    }
    var nLayers := DeclaredLayers(stageIn);
    if nLayers > 0 && kLayers.None? && kAgg.Some? {
      kLayers := Split0(kAgg.value, nLayers);
    }
    if nLayers > 0 && vLayers.None? && vAgg.Some? {
      vLayers := Split0(vAgg.value, nLayers);
    }
    st := DecodeState(y, yEmb, Caches(kLayers, vLayers, kAgg, vAgg));
  }

  /**
   * Lines 222-255 of `t2s_cpu`, one step: the feed built from the declared
   * inputs, the stage run, its outputs unpacked, the caches updated and the
   * stop test taken. `ok` is false where the run raises.
   */
  method DecodeStep(stage: Session, xExample: Option<Tensor>, st: DecodeState)
    returns (ok: bool, next: DecodeState, stop: bool)
    ensures Step(stage, xExample, st) == if ok then Some((next, stop)) else None
  {
    var feed := BuildStageFeed(stage.inputNames, st.y, st.yEmb, st.caches, xExample);
    var outputs := stage.run(feed);
    if outputs.None? {
      return false, st, false;
    }
    if |outputs.value| < |stage.outputNames| {
      return false, st, false;
    }
    var u := UnpackStageOutputs(stage.outputNames, outputs.value, st.yEmb);
    ok, next, stop := true, DecodeState(u.y, u.yEmb, UpdateCaches(st.caches, u)), StopDecision(u.samples, u.logits, u.y);
  }

  /**
   * Lines 217-258 of `t2s_cpu`: `for idx in range(0, 500)`, reading the
   * cancel flag at the top of each step and leaving on the stop decision.
   */
  method RunSteps(stage: Session, xExample: Option<Tensor>, ghost step: Stepper, cancelAt: nat -> bool, st0: DecodeState)
    returns (e: LoopEnd, ghost runs: nat)
    requires StepAgrees(step, stage, xExample)
    ensures e == Loop(step, cancelAt, 0, st0)
    ensures runs == StageRuns(e)
  {
    ghost var whole := Loop(step, cancelAt, 0, st0);
    var st := st0;
    var idx: nat := 0;
    runs := 0;
    while true
      invariant idx < MaxSteps && runs == idx
      invariant whole == Loop(step, cancelAt, idx, st)
      decreases MaxSteps - idx
    {
      var ended, next;
      ended, next, runs := LoopStep(stage, xExample, step, cancelAt, idx, st, runs);
      if ended.Some? {
        return ended.value, runs;
      }
      st, idx := next, idx + 1;
    }
  }

  /**
   * One pass of the loop body at `idx`: the flag read, then the step. The
   * loop's ending when the body leaves the loop (`return None`, a raise,
   * `break` or exhaustion), else the state the next pass starts from.
   * `runs` counts the stage runs made so far, this pass's included.
   */
  method LoopStep(stage: Session, xExample: Option<Tensor>, ghost step: Stepper, cancelAt: nat -> bool, idx: nat,
                  st: DecodeState, ghost runs0: nat)
    returns (ended: Option<LoopEnd>, next: DecodeState, ghost runs: nat)
    requires StepAgrees(step, stage, xExample) && idx < MaxSteps && runs0 == idx
    ensures ended.Some? ==> ended.value == Loop(step, cancelAt, idx, st) && runs == StageRuns(ended.value)
    ensures ended.None? ==>
      idx + 1 < MaxSteps && Loop(step, cancelAt, idx, st) == Loop(step, cancelAt, idx + 1, next) && runs == idx + 1
  {
    runs := runs0;
    if cancelAt(idx) {
      LoopCancelled(step, cancelAt, idx, st);
      return Some(Cancelled(idx)), st, runs;
    }
    var ok, stop;
    ok, next, stop := DecodeStep(stage, xExample, st);
    runs := runs + 1;
    LoopAdvance(step, cancelAt, idx, st, ok, next, stop);
    if !ok {
      return Some(Crashed(idx)), st, runs;
    }
    if stop || idx == MaxSteps - 1 {
      return Some(Finished(next, idx)), next, runs;
    }
    ended := None;
  }

  /**
   * `t2s_cpu`: the encoder and first-stage runs, the cache reconciliation,
   * the step loop, then `y[0, -1] = 0` and the trailing `idx` columns.
   * `stageRuns` counts the stage runs, one at each step that runs the stage.
   */
  method T2S(inp: T2SInputs, g: Graphs, cancelAt: nat -> bool) returns (r: Outcome<Tensor>, ghost stageRuns: nat)
    requires Conforms(g.firstStage)
    ensures r == T2SSpec(inp, g, cancelAt)
    ensures stageRuns == T2SStageRuns(inp, g, cancelAt)
  {
    var enc := g.encoder.run(EncoderFeed(inp));
    if enc.None? || |enc.value| != 2 {
      return Raised, 0;
    }
    var x, prompts := enc.value[0], enc.value[1];
    var fsRun := g.firstStage.run(FirstStageFeed(x, prompts));
    if fsRun.None? {
      return Raised, 0;
    }
    var st0, xExample := PrepareState(g.firstStage.outputNames, fsRun.value, g.stage.inputNames);
    StepOfAgrees(g.stage, xExample);
    var e;
    e, stageRuns := RunSteps(g.stage, xExample, StepOf(g.stage, xExample), cancelAt, st0);
    match e
    case Cancelled(_) =>
      r := ReturnedNone;
    case Crashed(_) =>
      r := Raised;
    case Finished(last, idx) =>
      var y := last.y;
      if y.None? {
        return Raised, stageRuns;
      }
      var z := ZeroLastOfFirstRow(y.value);
      if z.None? {
        return Raised, stageRuns;
      }
      r := Returned(ExpandDims0(TrailingColumns(z.value, idx)));
  }
}
