/**
 * The lifecycle operations of BehaviourNode together with the listeners
 * that the root and the selector attach to the events those operations
 * raise. A root's own OnStarted / OnStartedSilent / OnStopping /
 * OnStoppingSilent listeners run when the root raises them; a node's
 * non-silent stop runs the OnChildNodeStopped listener of a parent that is
 * a root or a selector. No listener of this model reacts to a silent
 * child stop.
 */
module BehaviourTree {
  import opened Optional
  import opened Nodes
  import RootNode
  import SelectorNode

  /**
   * StartNode(silent): succeeds exactly when the node is INACTIVE and its
   * parent is absent or ACTIVE; the node is then ACTIVE with no result and
   * exactly one of OnStarted / OnStartedSilent of the node is raised, as
   * `silent` says. On failure nothing changes.
   */
  function StartNode(a: Arena, id: NodeId, silent: bool): (r: (Arena, bool))
    requires WellFormed(a.nodes) && id < |a.nodes|
    ensures WellFormed(r.0.nodes) && SameShape(a.nodes, r.0.nodes)
    ensures r.0.elapsedTime == a.elapsedTime && r.0.nextTimerId == a.nextTimerId
    ensures r.1 == CanStart(a.nodes, id)
    ensures !r.1 ==> r.0 == a
    ensures r.1 ==> && r.0.nodes[id].state == Active && r.0.nodes[id].result.None?
                    && |r.0.log| > |a.log| && r.0.log[..|a.log|] == a.log
                    && r.0.log[|a.log|] == (if silent then OnStartedSilent(id) else OnStarted(id))
                    && forall e :: e in r.0.log[|a.log| + 1..] ==> e.node != id
    ensures r.1 ==> r.0.nodes[id] == a.nodes[id].(state := Active, result := None, kind := r.0.nodes[id].kind)
    ensures forall j :: 0 <= j < |a.nodes| && j != id && !(a.nodes[id].kind.Root? && !silent && j == RootNode.Child(a, id))
                        ==> r.0.nodes[j] == a.nodes[j]
    ensures r.1 && !a.nodes[id].kind.Root? ==> r.0 == BaseStart(a, id, silent).0
    ensures r.1 && a.nodes[id].kind.Root? && silent ==> r.0 == RootNode.OnStartedSilentListener(BaseStart(a, id, silent).0, id)
    ensures r.1 && a.nodes[id].kind.Root? && !silent ==> r.0 == RootNode.OnStartedListener(BaseStart(a, id, silent).0, id)
  {
    var (a1, ok) := BaseStart(a, id, silent);
    if !ok then (a, false)
    else
      SameShapeKeepsWellFormed(a.nodes, a1.nodes);
      if !a1.nodes[id].kind.Root? then (a1, true)
      else if silent then
        var b := RootNode.OnStartedSilentListener(a1, id);
        assert b.log[|a.log| + 1..] == [];
        (b, true)
      else
        var b := RootNode.OnStartedListener(a1, id);
        var c := RootNode.Child(a1, id);
        assert b.log[|a.log| + 1..] == if CanStart(a1.nodes, c) then [OnStarted(c)] else [];
        (b, true)
  }

  /**
   * RequestStopNode(silent): an ACTIVE node becomes STOPPING and raises
   * OnStopping (or OnStoppingSilent), and its listeners run; from INACTIVE
   * or STOPPING it returns false and nothing changes.
   */
  function RequestStopNode(a: Arena, id: NodeId, silent: bool): (r: (Arena, bool))
    requires WellFormed(a.nodes) && id < |a.nodes|
    ensures WellFormed(r.0.nodes) && SameShape(a.nodes, r.0.nodes)
    ensures r.0.elapsedTime == a.elapsedTime && r.0.nextTimerId == a.nextTimerId
    ensures r.1 == (a.nodes[id].state == Active)
    ensures !r.1 ==> r.0 == a
    ensures r.1 ==> && r.0.nodes[id].state == Stopping
                    && |r.0.log| > |a.log| && r.0.log[..|a.log|] == a.log
                    && r.0.log[|a.log|] == (if silent then OnStoppingSilent(id) else OnStopping(id))
    ensures r.1 ==> r.0.nodes[id] == a.nodes[id].(state := Stopping, timers := r.0.nodes[id].timers)
    ensures forall j :: 0 <= j < |a.nodes| && j != id && !(a.nodes[id].kind.Root? && !silent && j == RootNode.Child(a, id))
                        ==> r.0.nodes[j] == a.nodes[j]
    ensures r.1 && !a.nodes[id].kind.Root? ==> r.0 == BaseRequestStop(a, id, silent).0
    ensures r.1 && a.nodes[id].kind.Root? && silent ==> r.0 == RootNode.OnStoppingSilentListener(BaseRequestStop(a, id, silent).0, id)
    ensures r.1 && a.nodes[id].kind.Root? && !silent ==> r.0 == RootNode.OnStoppingListener(BaseRequestStop(a, id, silent).0, id)
  {
    var (a1, ok) := BaseRequestStop(a, id, silent);
    if !ok then (a, false)
    else
      SameShapeKeepsWellFormed(a.nodes, a1.nodes);
      if !a1.nodes[id].kind.Root? then (a1, true)
      else if silent then (RootNode.OnStoppingSilentListener(a1, id), true)
      else (RootNode.OnStoppingListener(a1, id), true)
  }

  /**
   * The OnChildNodeStopped listener of parent `p`, by its class: the root
   * schedules a restart or reports that it stopped, the selector advances
   * or reports failure, and other parents are not part of this model.
   */
  function ChildStopped(a: Arena, p: NodeId, child: NodeId, success: bool): (b: Arena)
    requires WellFormed(a.nodes) && p < |a.nodes|
    ensures WellFormed(b.nodes) && SameShape(a.nodes, b.nodes)
    ensures forall j :: 0 <= j < |a.nodes| && j != p ==> b.nodes[j] == a.nodes[j]
    ensures b.nodes[p].state == a.nodes[p].state && b.nodes[p].result == a.nodes[p].result
    ensures !a.nodes[p].kind.Root? ==> b.nodes == a.nodes
    ensures |b.log| >= |a.log| && b.log[..|a.log|] == a.log
    ensures b.elapsedTime == a.elapsedTime
  {
    match a.nodes[p].kind
    case Root(_, _) => RootNode.OnChildNodeStoppedListener(a, p, success)
    case Selector(_) => SelectorNode.OnChildNodeStoppedListener(a, p, success)
    case Plain => a
  }

  /**
   * StopNode(success, silent): from ACTIVE or STOPPING the node becomes
   * INACTIVE with Result = success, raises its own stopped event and then
   * notifies its parent, whose listener runs. From INACTIVE it returns
   * false and nothing changes.
   */
  function StopNode(a: Arena, id: NodeId, success: bool, silent: bool): (r: (Arena, bool))
    requires WellFormed(a.nodes) && id < |a.nodes|
    ensures WellFormed(r.0.nodes) && SameShape(a.nodes, r.0.nodes) && r.0.elapsedTime == a.elapsedTime
    ensures r.1 == (a.nodes[id].state != Inactive)
    ensures !r.1 ==> r.0 == a
    ensures r.1 ==> && r.0.nodes[id].state == Inactive && r.0.nodes[id].result == Some(success)
                    && |r.0.log| > |a.log|
                    && r.0.log[..|a.log|] == a.log
                    && r.0.log[|a.log|] == (if silent then OnStoppedSilent(id, success) else OnStopped(id, success))
    ensures r.1 && a.nodes[id].parent.Some? ==>
              && |r.0.log| > |a.log| + 1
              && r.0.log[|a.log| + 1] == ParentNotice(a.nodes[id].parent, id, success, silent)[0]
    ensures r.1 ==> r.0.nodes[id] == a.nodes[id].(state := Inactive, result := Some(success))
    ensures forall j :: 0 <= j < |a.nodes| && j != id && a.nodes[id].parent != Some(j) ==> r.0.nodes[j] == a.nodes[j]
    ensures a.nodes[id].parent.Some? ==> a.nodes[id].parent.value < |a.nodes|
    ensures r.1 && (silent || a.nodes[id].parent.None?) ==> r.0 == BaseStop(a, id, success, silent).0
    ensures r.1 && !silent && a.nodes[id].parent.Some? ==>
              r.0 == ChildStopped(BaseStop(a, id, success, silent).0, a.nodes[id].parent.value, id, success)
  {
    assert NodeWellFormed(a.nodes, id);
    var (a1, ok) := BaseStop(a, id, success, silent);
    if !ok then (a, false)
    else
      SameShapeKeepsWellFormed(a.nodes, a1.nodes);
      if silent || a1.nodes[id].parent.None? then (a1, true)
      else
        assert NodeWellFormed(a1.nodes, id);
        var p := a1.nodes[id].parent.value;
        var b := ChildStopped(a1, p, id, success);
        assert p != id ==> b.nodes[id] == a1.nodes[id];
        (b, true)
  }

  /**
   * SetParent: a root always throws; any other node throws when the new
   * parent is a TASK and otherwise takes the new parent (none allowed).
   */
  function SetParent(a: Arena, id: NodeId, parent: Option<NodeId>): (r: Result<Arena>)
    requires WellFormed(a.nodes) && id < |a.nodes|
    requires parent.Some? ==> parent.value < |a.nodes|
    ensures r.Thrown? <==> a.nodes[id].kind.Root? || (parent.Some? && a.nodes[parent.value].nodeType == Task)
    ensures r.Ok? ==> && r.value.nodes == a.nodes[id := a.nodes[id].(parent := parent)]
                      && WellFormed(r.value.nodes) && r.value.log == a.log
  {
    if a.nodes[id].kind.Root? then RootNode.SetParent(a, id, parent)
    else BaseSetParent(a, id, parent)
  }

  // ---------------------------------------------------------------------
  // Properties of the lifecycle
  // ---------------------------------------------------------------------

  /** A second StartNode right after a successful one fails and changes nothing. */
  lemma StartTwiceIsRefused(a: Arena, id: NodeId, silent: bool, silent': bool)
    requires WellFormed(a.nodes) && id < |a.nodes| && StartNode(a, id, silent).1
    ensures var b := StartNode(a, id, silent).0;
            StartNode(b, id, silent') == (b, false)
  {
  }

  /** A second StopNode right after a successful one fails and changes nothing. */
  lemma StopTwiceIsRefused(a: Arena, id: NodeId, success: bool, silent: bool, success': bool, silent': bool)
    requires WellFormed(a.nodes) && id < |a.nodes| && StopNode(a, id, success, silent).1
    ensures var b := StopNode(a, id, success, silent).0;
            StopNode(b, id, success', silent') == (b, false)
  {
  }

  /** A root's first child, with the root as its parent. */
  predicate ChildOf(a: Arena, r: NodeId, c: NodeId) {
    RootNode.IsRoot(a, r) && c == RootNode.Child(a, r) && a.nodes[c].parent == Some(r)
  }

  /**
   * A non-silent start of a root wakes it and starts its INACTIVE child at
   * once: the log shows the root's OnStarted followed by the child's.
   */
  lemma RootStartStartsChild(a: Arena, r: NodeId, c: NodeId)
    requires ChildOf(a, r, c) && CanStart(a.nodes, r) && a.nodes[c].state == Inactive
    ensures var (b, ok) := StartNode(a, r, false);
            && ok && b.nodes[r].state == Active && !b.nodes[r].kind.isSilent
            && b.nodes[c].state == Active
            && b.log == a.log + [OnStarted(r), OnStarted(c)]
  {
    var (a1, ok) := BaseStart(a, r, false);
    SameShapeKeepsWellFormed(a.nodes, a1.nodes);
    assert RootNode.Child(a1, r) == c;
    assert CanStart(a1.nodes, c);
  }

  /** A silent start of a root puts it to sleep and leaves its child as it was. */
  lemma RootSilentStartLeavesChild(a: Arena, r: NodeId, c: NodeId)
    requires ChildOf(a, r, c) && CanStart(a.nodes, r)
    ensures var (b, ok) := StartNode(a, r, true);
            && ok && b.nodes[r].state == Active && b.nodes[r].kind.isSilent
            && b.nodes[c] == a.nodes[c]
            && b.log == a.log + [OnStartedSilent(r)]
  {
  }

  /**
   * A root that is STOPPING stays STOPPING whatever its child does: a child
   * stop only makes the root raise OnStopped with the child's result, and
   * the root can be neither started nor asked to stop again.
   */
  lemma RootStoppingIsSticky(a: Arena, r: NodeId, c: NodeId, success: bool)
    requires ChildOf(a, r, c) && a.nodes[r].state == Stopping && a.nodes[c].state != Inactive
    ensures var (b, ok) := StopNode(a, c, success, false);
            && ok && b.nodes[r] == a.nodes[r]
            && b.log == a.log + [OnStopped(c, success), OnChildNodeStopped(r, c, success), OnStopped(r, success)]
    ensures StartNode(a, r, false) == (a, false) && StartNode(a, r, true) == (a, false)
    ensures RequestStopNode(a, r, false) == (a, false) && RequestStopNode(a, r, true) == (a, false)
  {
  }

  /**
   * A non-silent stop request to a root whose child is ACTIVE passes the
   * request on to the child and reports the root stopped, while the root
   * itself stays STOPPING.
   */
  lemma RootStopRequestReachesChild(a: Arena, r: NodeId, c: NodeId)
    requires ChildOf(a, r, c) && a.nodes[r].state == Active && a.nodes[c].state == Active
    ensures var (b, ok) := RequestStopNode(a, r, false);
            && ok && b.nodes[r].state == Stopping && b.nodes[c].state == Stopping
            && b.log == a.log + [OnStopping(r), OnStopping(c), OnStopped(r, true)]
  {
    var (a1, ok) := BaseRequestStop(a, r, false);
    SameShapeKeepsWellFormed(a.nodes, a1.nodes);
    assert RootNode.Child(a1, r) == c;
  }

  /**
   * A failed child makes its selector raise OnStopped(false), but the
   * selector stays in its state and its own parent hears nothing.
   */
  lemma SelectorFailureOnlyRaisesEvent(a: Arena, s: NodeId, c: NodeId)
    requires WellFormed(a.nodes) && s < |a.nodes| && c < |a.nodes| && c != s
    requires a.nodes[s].kind.Selector? && a.nodes[c].parent == Some(s) && a.nodes[c].state != Inactive
    ensures var (b, ok) := StopNode(a, c, false, false);
            && ok && b.nodes[s] == a.nodes[s]
            && b.log == a.log + [OnStopped(c, false), OnChildNodeStopped(s, c, false), OnStopped(s, false)]
  {
  }

  /** A successful child makes its selector advance and raise nothing of its own. */
  lemma SelectorSuccessAdvances(a: Arena, s: NodeId, c: NodeId)
    requires WellFormed(a.nodes) && s < |a.nodes| && c < |a.nodes| && c != s
    requires a.nodes[s].kind.Selector? && a.nodes[c].parent == Some(s) && a.nodes[c].state != Inactive
    ensures var (b, ok) := StopNode(a, c, true, false);
            && ok && b.nodes[s] == a.nodes[s]
            && b.log == a.log + [OnStopped(c, true), OnChildNodeStopped(s, c, true), Advanced(s, false)]
  {
  }

  // ---------------------------------------------------------------------
  // The deferred restart
  // ---------------------------------------------------------------------

  /** The restart timer that OnChildNodeStopped adds is last in the list and due. */
  predicate DueRestartLast(ts: seq<NodeTimer>, elapsedTime: real) {
    && |ts| > 0
    && var t := ts[|ts| - 1];
       t.IsActive() && t.TimeElapsed(elapsedTime) && t.action == StartFirstChild && !t.autoRemove
  }

  /**
   * One step of the pass over a root's timers never makes its first child
   * STOPPING: a fired restart can only make it ACTIVE.
   */
  lemma StepKeepsChildNotStopping(a: Arena, r: NodeId, c: NodeId, i: nat)
    requires ChildOf(a, r, c) && a.nodes[r].state == Active && a.nodes[c].state != Stopping
    requires i < |a.nodes[r].timers|
    ensures var a2 := StepAt(a, r, i);
            && ChildOf(a2, r, c) && a2.nodes[r].state == Active && a2.nodes[c].state != Stopping
            && (a.nodes[c].state == Active ==> a2.nodes[c].state == Active)
  {
    var ts := a.nodes[r].timers;
    var u := UpdateTimer(ts[i], a.elapsedTime);
    var a1 := if u.fired then RunAction(a, r, ts[i].action) else a;
    SameShapeKeepsWellFormed(a.nodes, a1.nodes);
    assert a1.nodes[c].state == a.nodes[c].state || a1.nodes[c].state == Active;
    var a2 := StepAt(a, r, i);
    assert a2 == SetTimers(a1, r, ts[i := u.timer]);
    assert RootNode.Child(a2, r) == c;
  }

  /**
   * A timer pass over an ACTIVE root whose last timer is a due restart
   * leaves its first child ACTIVE, when the child is INACTIVE or already
   * ACTIVE: the earlier timers can at most start the child early.
   */
  lemma {:induction false} PassRestartsChild(a: Arena, r: NodeId, c: NodeId, i: nat)
    requires ChildOf(a, r, c) && a.nodes[r].state == Active && a.nodes[c].state != Stopping
    requires i < |a.nodes[r].timers| && DueRestartLast(a.nodes[r].timers, a.elapsedTime)
    ensures UpdateTimersFrom(a, r, i, AsWritten).nodes[c].state == Active
    decreases |a.nodes[r].timers| - i
  {
    var ts := a.nodes[r].timers;
    if Pruned(ts[i], AsWritten) {
      var a1 := PruneAt(a, r, i);
      var ts1 := a1.nodes[r].timers;
      assert ts1[|ts1| - 1] == ts[|ts| - 1];
      assert RootNode.Child(a1, r) == c;
      PassRestartsChild(a1, r, c, i);
    } else if i < |ts| - 1 {
      var a2 := StepAt(a, r, i);
      StepKeepsChildNotStopping(a, r, c, i);
      assert a2.nodes[r].timers[|ts| - 1] == ts[|ts| - 1];
      PassRestartsChild(a2, r, c, i + 1);
    } else {
      var u := UpdateTimer(ts[i], a.elapsedTime);
      assert u.fired;
      assert NodeWellFormed(a.nodes, c);
      var a1 := RunAction(a, r, ts[i].action);
      assert a1.nodes[c].state == Active;
      SameShapeKeepsWellFormed(a.nodes, a1.nodes);
      var a2 := SetTimers(a1, r, ts[i := u.timer]);
      assert StepAt(a, r, i) == a2;
      assert UpdateTimersFrom(a, r, i, AsWritten) == UpdateTimersFrom(a2, r, i + 1, AsWritten) == a2;
    }
  }

  /**
   * The root restarts its child one tick late: when the ACTIVE child of an
   * ACTIVE root stops, the child is left INACTIVE with a restart timer
   * pending, and the root's next UpdateTimers makes the child ACTIVE again.
   */
  lemma DeferredRestart(a: Arena, r: NodeId, c: NodeId, success: bool)
    requires ChildOf(a, r, c) && a.nodes[r].state == Active && a.nodes[c].state == Active
    ensures var (b, ok) := StopNode(a, c, success, false);
            && ok && b.nodes[c].state == Inactive && b.nodes[r].state == Active
            && b.nodes[r].kind.rootTimer == Some(a.nextTimerId)
            && UpdateTimers(b, r).nodes[c].state == Active
  {
    var (b, ok) := StopNode(a, c, success, false);
    var (a1, _) := BaseStop(a, c, success, false);
    SameShapeKeepsWellFormed(a.nodes, a1.nodes);
    assert b == RootNode.OnChildNodeStoppedListener(a1, r, success);
    assert b.nodes[r].timers == a.nodes[r].timers
                                + [NodeTimer(a.nextTimerId, 0.0, a.elapsedTime, 0, 0, false, StartFirstChild)];
    assert RootNode.Child(b, r) == c;
    PassRestartsChild(b, r, c, 0);
  }
}
