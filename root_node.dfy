/**
 * BehaviourRootNode: the node at the top of a tree. It has one child,
 * `Children[0]`; a private sleep flag (`IsSilent`) that gates updating; and
 * the timer `m_rootTimer` that restarts the child one tick after it stops.
 *
 * Each listener the root registers in its constructor is a function from
 * the arena before the event to the arena after it. Module BehaviourTree
 * calls them when the root's events are raised.
 */
module RootNode {
  import opened Optional
  import opened Nodes

  /** Node `r` of the arena is a BehaviourRootNode and the arena has the shape of a tree. */
  predicate IsRoot(a: Arena, r: NodeId) {
    WellFormed(a.nodes) && r < |a.nodes| && a.nodes[r].kind.Root?
  }

  /** `Children[0]`: a node of the arena, not a root, so not the root itself. */
  function Child(a: Arena, r: NodeId): (c: NodeId)
    requires IsRoot(a, r)
    ensures c < |a.nodes| && !a.nodes[c].kind.Root? && c != r
  {
    assert NodeWellFormed(a.nodes, r);
    a.nodes[r].children[0]
  }

  /** The BehaviourRootNode constructor: an INACTIVE DECORATOR node, awake, with no restart timer. */
  function NewRoot(name: string): (n: Node)
    ensures n.nodeType == Decorator && n.kind == Root(false, None)
    ensures n.name == name && n.state == Inactive && n.result.None? && n.parent.None? && n.timers == []
  {
    NewNode(name, Decorator, Root(false, None))
  }

  /** The root with its sleep flag set to `isSilent`; nothing else differs. */
  function SetSilent(a: Arena, r: NodeId, isSilent: bool): (b: Arena)
    requires IsRoot(a, r)
    ensures IsRoot(b, r) && Child(b, r) == Child(a, r)
    ensures b.nodes[r].kind == Root(isSilent, a.nodes[r].kind.rootTimer)
    ensures b.nodes == a.nodes[r := a.nodes[r].(kind := b.nodes[r].kind)]
    ensures b.log == a.log && b.elapsedTime == a.elapsedTime && b.nextTimerId == a.nextTimerId
  {
    var b := SetNode(a, r, a.nodes[r].(kind := a.nodes[r].kind.(isSilent := isSilent)));
    SameShapeKeepsWellFormed(a.nodes, b.nodes);
    b
  }

  /**
   * OnStarted_Listener: the root wakes up and starts its child
   * (StartChildNode, a non-silent start). The child starts exactly when
   * it could start once the root is awake; the root's own state and
   * timers are not touched.
   */
  function OnStartedListener(a: Arena, r: NodeId): (b: Arena)
    requires IsRoot(a, r)
    ensures IsRoot(b, r) && SameShape(a.nodes, b.nodes) && Child(b, r) == Child(a, r)
    ensures b.nodes[r] == a.nodes[r].(kind := Root(false, a.nodes[r].kind.rootTimer))
    ensures var c := Child(a, r);
            && (CanStart(a.nodes, c) ==> b.nodes[c] == a.nodes[c].(state := Active, result := None)
                                         && b.log == a.log + [OnStarted(c)])
            && (!CanStart(a.nodes, c) ==> b.nodes[c] == a.nodes[c] && b.log == a.log)
    ensures forall j :: 0 <= j < |a.nodes| && j != r && j != Child(a, r) ==> b.nodes[j] == a.nodes[j]
    ensures b.elapsedTime == a.elapsedTime && b.nextTimerId == a.nextTimerId
  {
    var c := Child(a, r);
    var a1 := SetSilent(a, r, false);
    assert a1.nodes[c] == a.nodes[c];
    assert NodeWellFormed(a.nodes, c);
    assert forall j :: 0 <= j < |a.nodes| ==> a1.nodes[j].state == a.nodes[j].state;
    assert CanStart(a1.nodes, c) == CanStart(a.nodes, c);
    var b := BaseStart(a1, c, false).0;
    SameShapeKeepsWellFormed(a1.nodes, b.nodes);
    b
  }

  /** OnStartedSilent_Listener: the root only goes to sleep; its child is not started. */
  function OnStartedSilentListener(a: Arena, r: NodeId): (b: Arena)
    requires IsRoot(a, r)
    ensures IsRoot(b, r) && |b.nodes| == |a.nodes| && b.nodes[r].kind.isSilent
    ensures b == a.(nodes := a.nodes[r := a.nodes[r].(kind := a.nodes[r].kind.(isSilent := true))])
  {
    SetSilent(a, r, true)
  }

  /**
   * OnChildNodeStopped_Listener. While the root is not STOPPING the child is
   * not restarted at once: one timer is added to the root (no delay, no
   * repeat, not removed automatically) whose action starts the child, and
   * it becomes `m_rootTimer`. While the root is STOPPING the root only
   * raises OnStopped with the child's result; its state stays STOPPING.
   */
  function OnChildNodeStoppedListener(a: Arena, r: NodeId, success: bool): (b: Arena)
    requires IsRoot(a, r)
    ensures IsRoot(b, r) && SameShape(a.nodes, b.nodes) && Child(b, r) == Child(a, r)
    ensures forall j :: 0 <= j < |a.nodes| && j != r ==> b.nodes[j] == a.nodes[j]
    ensures b.nodes[r].state == a.nodes[r].state
    ensures a.nodes[r].state != Stopping ==>
              && b.log == a.log
              && b.nextTimerId == a.nextTimerId + 1
              && b.nodes[r].kind.rootTimer == Some(a.nextTimerId)
              && b.nodes[r].kind.isSilent == a.nodes[r].kind.isSilent
              && b.nodes[r].timers == a.nodes[r].timers
                                      + [NodeTimer(a.nextTimerId, 0.0, a.elapsedTime, 0, 0, false, StartFirstChild)]
    ensures a.nodes[r].state == Stopping ==> b.nodes == a.nodes && b.log == a.log + [OnStopped(r, success)]
  {
    if a.nodes[r].state != Stopping then
      var (a1, id) := AddTimer(a, r, 0.0, 0.0, 0.0, 0, StartFirstChild, false);
      assert SameShape(a.nodes, a1.nodes);
      SameShapeKeepsWellFormed(a.nodes, a1.nodes);
      var b := SetNode(a1, r, a1.nodes[r].(kind := a1.nodes[r].kind.(rootTimer := Some(id))));
      SameShapeKeepsWellFormed(a1.nodes, b.nodes);
      b
    else
      Emit(a, OnStopped(r, success))
  }

  /**
   * OnStopping_Listener: an ACTIVE child is asked to stop (non-silently);
   * otherwise the pending restart timer `m_rootTimer` is removed. Either
   * way the root then raises OnStopped(true).
   */
  function OnStoppingListener(a: Arena, r: NodeId): (b: Arena)
    requires IsRoot(a, r)
    ensures IsRoot(b, r) && SameShape(a.nodes, b.nodes) && Child(b, r) == Child(a, r)
    ensures var c := Child(a, r);
            && (a.nodes[c].state == Active ==>
                  && b.nodes == a.nodes[c := a.nodes[c].(state := Stopping)]
                  && b.log == a.log + [OnStopping(c), OnStopped(r, true)])
            && (a.nodes[c].state != Active ==>
                  && b.nodes == a.nodes[r := a.nodes[r].(timers := RemoveTimerFrom(a.nodes[r].timers, a.nodes[r].kind.rootTimer))]
                  && b.log == a.log + [OnStopped(r, true)])
    ensures b.elapsedTime == a.elapsedTime && b.nextTimerId == a.nextTimerId
  {
    var c := Child(a, r);
    var a1 := if a.nodes[c].state == Active then BaseRequestStop(a, c, false).0
              else RemoveTimer(a, r, a.nodes[r].kind.rootTimer);
    SameShapeKeepsWellFormed(a.nodes, a1.nodes);
    Emit(a1, OnStopped(r, true))
  }

  /**
   * OnStoppingSilent_Listener: the pending restart timer is removed when the
   * child is not ACTIVE. The child is never asked to stop and no event is
   * raised.
   */
  function OnStoppingSilentListener(a: Arena, r: NodeId): (b: Arena)
    requires IsRoot(a, r)
    ensures IsRoot(b, r) && SameShape(a.nodes, b.nodes) && b.log == a.log
    ensures forall j :: 0 <= j < |a.nodes| && j != r ==> b.nodes[j] == a.nodes[j]
    ensures a.nodes[Child(a, r)].state == Active ==> b == a
    ensures a.nodes[Child(a, r)].state != Active ==>
              b.nodes[r] == a.nodes[r].(timers := RemoveTimerFrom(a.nodes[r].timers, a.nodes[r].kind.rootTimer))
  {
    if a.nodes[Child(a, r)].state != Active then
      var b := RemoveTimer(a, r, a.nodes[r].kind.rootTimer);
      SameShapeKeepsWellFormed(a.nodes, b.nodes);
      b
    else a
  }

  /** BehaviourRootNode.SetParent: a root never takes a parent; every call throws. */
  function SetParent(a: Arena, r: NodeId, parent: Option<NodeId>): (res: Result<Arena>)
    requires IsRoot(a, r)
    ensures res == Thrown("Root nodes cannot have parents")
  {
    Thrown("Root nodes cannot have parents")
  }

  /**
   * BehaviourRootNode.UpdateRecursively. `baseResult` is what the
   * BehaviourParentNode update (not part of this model) returns; that call
   * is recorded as BaseUpdate. A sleeping root returns false and changes
   * nothing.
   */
  function UpdateRecursively(a: Arena, r: NodeId, baseResult: bool): (res: (Arena, bool))
    requires IsRoot(a, r)
    ensures a.nodes[r].kind.isSilent ==> res == (a, false)
    ensures !a.nodes[r].kind.isSilent ==> res.1 == baseResult && res.0.nodes == a.nodes
                                          && res.0.log == a.log + [BaseUpdate(r)]
  {
    if a.nodes[r].kind.isSilent then (a, false)
    else (Emit(a, BaseUpdate(r)), baseResult)
  }

  /** BehaviourRootNode.Wake: clears the sleep flag and nothing else. */
  function Wake(a: Arena, r: NodeId): (b: Arena)
    requires IsRoot(a, r)
    ensures IsRoot(b, r) && |b.nodes| == |a.nodes| && !b.nodes[r].kind.isSilent
    ensures b == a.(nodes := a.nodes[r := a.nodes[r].(kind := a.nodes[r].kind.(isSilent := false))])
  {
    SetSilent(a, r, false)
  }

  /** BehaviourRootNode.Sleep: sets the sleep flag and nothing else. */
  function Sleep(a: Arena, r: NodeId): (b: Arena)
    requires IsRoot(a, r)
    ensures IsRoot(b, r) && |b.nodes| == |a.nodes| && b.nodes[r].kind.isSilent
    ensures b == a.(nodes := a.nodes[r := a.nodes[r].(kind := a.nodes[r].kind.(isSilent := true))])
  {
    SetSilent(a, r, true)
  }

  /** A sleeping root does no update work and reports false; a woken one passes the base result on. */
  lemma SleepGatesUpdate(a: Arena, r: NodeId, baseResult: bool)
    requires IsRoot(a, r)
    ensures UpdateRecursively(Sleep(a, r), r, baseResult) == (Sleep(a, r), false)
    ensures UpdateRecursively(Wake(a, r), r, baseResult).1 == baseResult
  {
  }

  /** Sleep and Wake undo each other: only the flag they set matters. */
  lemma SleepWakeRoundTrip(a: Arena, r: NodeId)
    requires IsRoot(a, r)
    ensures Wake(Sleep(a, r), r) == Wake(a, r)
    ensures Sleep(Wake(a, r), r) == Sleep(a, r)
  {
    assert Wake(Sleep(a, r), r).nodes == Wake(a, r).nodes;
    assert Sleep(Wake(a, r), r).nodes == Sleep(a, r).nodes;
  }
}
