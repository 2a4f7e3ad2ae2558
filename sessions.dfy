/**
 * Inference sessions as the decoder sees them: the declared input and output
 * names it introspects, and the graph itself as a function from a named feed
 * to the list of output arrays. What a graph computes is not part of this
 * model; every property below holds for every graph.
 */
module Sessions {
  import opened Wrappers
  import opened Tensors
  import opened Names

  /** The named inputs of one run; Python may feed `None` under a name. */
  type Feed = map<string, Option<Tensor>>

  /**
   * A loaded graph: `get_inputs()` and `get_outputs()` names, and `run`, which
   * gives the output arrays in declared order, or None where the runtime raises.
   */
  datatype Session = Session(inputNames: seq<string>, outputNames: seq<string>, run: Feed -> Option<seq<Tensor>>)

  /** The runtime's contract: a run that succeeds yields one array per declared output. */
  ghost predicate Conforms(s: Session)
  {
    forall f :: s.run(f).Some? ==> |s.run(f).value| == |s.outputNames|
  }

  /**
   * `sum(1 for n in names if n.startswith(prefix))`. It is the reference
   * count against which the layer collection, the declared-layer count and
   * the per-layer unpacking are stated.
   */
  function CountPrefixed(names: seq<string>, prefix: string): (r: nat)
    ensures r <= |names|
  {
    if names == [] then 0
    else CountPrefixed(names[..|names| - 1], prefix) + (if StartsWith(names[|names| - 1], prefix) then 1 else 0)
  }
}
