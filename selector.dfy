/**
 * BehaviourSelector: a composite node whose only behaviour of its own is
 * how it reacts when a child stops. Choosing and starting the next child
 * is ProcessChildNodeSequence(bool) of BehaviourSequenceSelectBase, which
 * is not part of this model; a call to it is recorded as
 * `Advanced(selector, flag)`.
 */
module SelectorNode {
  import opened Nodes

  /** The BehaviourSelector constructor: a composite named "Selector" that keeps `isRandom`. */
  function NewSelector(isRandom: bool): (n: Node)
    ensures n.name == "Selector" && n.nodeType == Composite && n.kind == Selector(isRandom)
    ensures n.state == Inactive && n.result.None? && n.parent.None? && n.timers == []
  {
    NewNode("Selector", Composite, Selector(isRandom))
  }

  /** The parameterless ProcessChildNodeSequence: always the base step with argument false. */
  function ProcessChildNodeSequence(a: Arena, s: NodeId): (b: Arena)
    ensures b.nodes == a.nodes && b.log == a.log + [Advanced(s, false)]
    ensures b.elapsedTime == a.elapsedTime && b.nextTimerId == a.nextTimerId
  {
    Emit(a, Advanced(s, false))
  }

  /**
   * OnChildNodeStopped_Listener: a child that succeeded makes the selector
   * advance; a child that failed makes it raise OnStopped(false). Only the
   * event is raised: the selector's own state and result stay as they
   * were, and its parent is not notified.
   */
  function OnChildNodeStoppedListener(a: Arena, s: NodeId, success: bool): (b: Arena)
    ensures b.nodes == a.nodes && b.elapsedTime == a.elapsedTime && b.nextTimerId == a.nextTimerId
    ensures |b.log| == |a.log| + 1 && b.log[..|a.log|] == a.log
    ensures success <==> b.log[|a.log|] == Advanced(s, false)
    ensures !success <==> b.log[|a.log|] == OnStopped(s, false)
  {
    if success then ProcessChildNodeSequence(a, s)
    else Emit(a, OnStopped(s, false))
  }
}
