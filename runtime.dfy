/**
 * The behaviour runtime as the program runs it: every BehaviourNode
 * object, the events they raise and the static clock, updated in place.
 * Each method does what the corresponding C# method does, step by step,
 * and is proved to end in the state that module BehaviourTree (or Nodes,
 * RootNode) computes from the state it started in, so every property
 * proved there holds of the running objects.
 */
module Runtime {
  import opened Optional
  import opened Nodes
  import RootNode
  import SelectorNode
  import BehaviourTree

  class Behaviours {
    var nodes: seq<Node>
    var log: seq<Event>
    var elapsedTime: real
    var nextTimerId: TimerId

    function View(): Arena
      reads this
    {
      Arena(nodes, log, elapsedTime, nextTimerId)
    }

    predicate Valid()
      reads this
    {
      WellFormed(nodes)
    }

    /** No nodes yet, nothing raised, the clock at zero. */
    constructor ()
      ensures Valid() && View() == Arena([], [], 0.0, 0)
    {
      nodes := [];
      log := [];
      elapsedTime := 0.0;
      nextTimerId := 0;
    }

    /**
     * A node object comes into being with its links already in place
     * (tree building is BehaviourParentNode's and not part of this model).
     */
    method AddNode(n: Node) returns (id: NodeId)
      requires Valid() && WellFormed(nodes + [n])
      modifies this
      ensures Valid() && id == old(|nodes|) && nodes == old(nodes) + [n]
      ensures log == old(log) && elapsedTime == old(elapsedTime) && nextTimerId == old(nextTimerId)
    {
      id := |nodes|;
      nodes := nodes + [n];
    }

    // -------------------------------------------------------------------
    // BehaviourNode
    // -------------------------------------------------------------------

    /** BehaviourNode.StartNode, with the started root's listeners. */
    method StartNode(id: NodeId, silent: bool) returns (ok: bool)
      requires Valid() && id < |nodes|
      modifies this
      ensures Valid() && (View(), ok) == BehaviourTree.StartNode(old(View()), id, silent)
      decreases if id < |nodes| && nodes[id].kind.Root? then 3 else 0
    {
      var n := nodes[id];
      assert NodeWellFormed(nodes, id);
      if n.state != Inactive || (n.parent.Some? && nodes[n.parent.value].state != Active) {
        return false;
      }
      nodes := nodes[id := n.(result := None, state := Active)];
      SameShapeKeepsWellFormed(old(nodes), nodes);
      if !silent {
        log := log + [OnStarted(id)];
        if n.kind.Root? {
          OnStartedListener(id);
        }
      } else {
        log := log + [OnStartedSilent(id)];
        if n.kind.Root? {
          OnStartedSilentListener(id);
        }
      }
      return true;
    }

    /** BehaviourNode.RequestStopNode, with the stopping root's listeners. */
    method RequestStopNode(id: NodeId, silent: bool) returns (ok: bool)
      requires Valid() && id < |nodes|
      modifies this
      ensures Valid() && (View(), ok) == BehaviourTree.RequestStopNode(old(View()), id, silent)
      decreases if id < |nodes| && nodes[id].kind.Root? then 2 else 0
    {
      if nodes[id].state != Active {
        return false;
      }
      var n := nodes[id];
      nodes := nodes[id := n.(state := Stopping)];
      SameShapeKeepsWellFormed(old(nodes), nodes);
      if !silent {
        log := log + [OnStopping(id)];
        if n.kind.Root? {
          OnStoppingListener(id);
        }
      } else {
        log := log + [OnStoppingSilent(id)];
        if n.kind.Root? {
          OnStoppingSilentListener(id);
        }
      }
      return true;
    }

    /** BehaviourNode.StopNode, with the parent's child-stopped listener. */
    method StopNode(id: NodeId, success: bool, silent: bool) returns (ok: bool)
      requires Valid() && id < |nodes|
      modifies this
      ensures Valid() && (View(), ok) == BehaviourTree.StopNode(old(View()), id, success, silent)
    {
      if nodes[id].state == Inactive {
        return false;
      }
      var n := nodes[id];
      assert NodeWellFormed(nodes, id);
      nodes := nodes[id := n.(state := Inactive, result := Some(success))];
      SameShapeKeepsWellFormed(old(nodes), nodes);
      ghost var stopped := BaseStop(old(View()), id, success, silent).0;
      if !silent {
        log := log + [OnStopped(id, success)];
        if n.parent.Some? {
          var p := n.parent.value;
          log := log + [OnChildNodeStopped(p, id, success)];
          assert View() == stopped;
          match nodes[p].kind {
            case Root(_, _) => RootOnChildNodeStopped(p, success);
            case Selector(_) => SelectorOnChildNodeStopped(p, success);
            case Plain =>
          }
          assert View() == BehaviourTree.ChildStopped(stopped, p, id, success);
        } else {
          assert View() == stopped;
        }
      } else {
        log := log + [OnStoppedSilent(id, success)];
        if n.parent.Some? {
          log := log + [OnChildNodeStoppedSilent(n.parent.value, id, success)];
        }
        assert View() == stopped;
      }
      return true;
    }

    /** SetParent: the message of the exception thrown, if any. */
    method SetParent(id: NodeId, parent: Option<NodeId>) returns (thrown: Option<string>)
      requires Valid() && id < |nodes| && (parent.Some? ==> parent.value < |nodes|)
      modifies this
      ensures Valid()
      ensures var r := BehaviourTree.SetParent(old(View()), id, parent);
              && (r.Thrown? ==> thrown == Some(r.message) && View() == old(View()))
              && (r.Ok? ==> thrown.None? && View() == r.value)
    {
      if nodes[id].kind.Root? {
        return Some("Root nodes cannot have parents");
      }
      if parent.Some? && nodes[parent.value].nodeType == Task {
        return Some("Tasks don`t have children");
      }
      SetParentKeepsWellFormed(nodes, id, parent);
      nodes := nodes[id := nodes[id].(parent := parent)];
      return None;
    }

    /** BehaviourNode.AddTimer: the new timer's id. */
    method AddTimer(k: NodeId, time: real, randomVariance: real, roll: real, repeat: int,
                    action: TimerAction, autoRemove: bool) returns (id: TimerId)
      requires Valid() && k < |nodes| && 0.0 <= roll <= 1.0
      modifies this
      ensures Valid()
      ensures (View(), id) == Nodes.AddTimer(old(View()), k, time, randomVariance, roll, repeat, action, autoRemove)
    {
      id := nextTimerId;
      var t := NewTimer(id, time, randomVariance, roll, repeat, action, autoRemove, elapsedTime);
      nodes := nodes[k := nodes[k].(timers := nodes[k].timers + [t])];
      SameShapeKeepsWellFormed(old(nodes), nodes);
      nextTimerId := nextTimerId + 1;
    }

    /** BehaviourNode.RunOnNextTick. */
    method RunOnNextTick(k: NodeId, action: TimerAction)
      requires Valid() && k < |nodes|
      modifies this
      ensures Valid() && View() == Nodes.RunOnNextTick(old(View()), k, action)
    {
      var _ := AddTimer(k, 0.0, 0.0, 0.0, 0, action, true);
    }

    /** BehaviourNode.RemoveTimer (`List.Remove`; a null timer removes nothing). */
    method RemoveTimer(k: NodeId, id: Option<TimerId>)
      requires Valid() && k < |nodes|
      modifies this
      ensures Valid() && View() == Nodes.RemoveTimer(old(View()), k, id)
    {
      nodes := nodes[k := nodes[k].(timers := RemoveTimerFrom(nodes[k].timers, id))];
      SameShapeKeepsWellFormed(old(nodes), nodes);
    }

    /** Invokes the action of a timer of node `k` that fired. */
    method RunAction(k: NodeId, action: TimerAction)
      requires Valid() && k < |nodes|
      modifies this
      ensures Valid() && View() == Nodes.RunAction(old(View()), k, action)
    {
      match action
      case StartFirstChild =>
        if nodes[k].kind.Root? {
          StartChildNode(k);
        }
      case Callback(tag) =>
        log := log + [TimerCallback(k, tag)];
    }

    /**
     * BehaviourNode.UpdateTimers: one pass over the list; a timer that
     * IsFinished and AutoRemove is removed where it stands and the index
     * stays put, any other timer is updated and the index moves on.
     */
    method UpdateTimers(k: NodeId)
      requires Valid() && k < |nodes|
      modifies this
      ensures Valid() && View() == Nodes.UpdateTimers(old(View()), k)
    {
      var i := 0;
      while i < |nodes[k].timers|
        invariant Valid() && k < |nodes| && i <= |nodes[k].timers|
        invariant UpdateTimersFrom(View(), k, i, AsWritten) == UpdateTimersFrom(old(View()), k, 0, AsWritten)
        decreases |nodes[k].timers| - i
      {
        var ts := nodes[k].timers;
        var before := nodes;
        var t := ts[i];
        if t.IsFinished() && t.autoRemove {
          nodes := nodes[k := nodes[k].(timers := ts[..i] + ts[i + 1..])];
          SameShapeKeepsWellFormed(before, nodes);
        } else {
          var u := UpdateTimer(t, elapsedTime);
          if u.fired {
            RunAction(k, t.action);
          }
          var fired := nodes;
          nodes := nodes[k := nodes[k].(timers := ts[i := u.timer])];
          SameShapeKeepsWellFormed(fired, nodes);
          i := i + 1;
        }
      }
    }

    /** BehaviourNode.UpdateTime: the static clock moves on by `deltaTime`. */
    method UpdateTime(deltaTime: real)
      modifies this
      ensures View() == Nodes.UpdateTime(old(View()), deltaTime)
    {
      elapsedTime := elapsedTime + deltaTime;
    }

    /** BehaviourNode.OverrideElapsedTime. */
    method OverrideElapsedTime(t: real)
      modifies this
      ensures View() == Nodes.OverrideElapsedTime(old(View()), t)
    {
      elapsedTime := t;
    }

    // -------------------------------------------------------------------
    // BehaviourRootNode
    // -------------------------------------------------------------------

    /** StartChildNode: `Children[0].StartNode()`. */
    method StartChildNode(r: NodeId)
      requires Valid() && RootNode.IsRoot(View(), r)
      modifies this
      ensures Valid() && View() == BaseStart(old(View()), RootNode.Child(old(View()), r), false).0
      decreases 1
    {
      var c := RootNode.Child(View(), r);
      var _ := StartNode(c, false);
    }

    method OnStartedListener(r: NodeId)
      requires Valid() && RootNode.IsRoot(View(), r)
      modifies this
      ensures Valid() && View() == RootNode.OnStartedListener(old(View()), r)
      decreases 2
    {
      nodes := nodes[r := nodes[r].(kind := nodes[r].kind.(isSilent := false))];
      SameShapeKeepsWellFormed(old(nodes), nodes);
      StartChildNode(r);
    }

    method OnStartedSilentListener(r: NodeId)
      requires Valid() && RootNode.IsRoot(View(), r)
      modifies this
      ensures Valid() && View() == RootNode.OnStartedSilentListener(old(View()), r)
    {
      Sleep(r);
    }

    method RootOnChildNodeStopped(r: NodeId, success: bool)
      requires Valid() && RootNode.IsRoot(View(), r)
      modifies this
      ensures Valid() && View() == RootNode.OnChildNodeStoppedListener(old(View()), r, success)
    {
      if nodes[r].state != Stopping {
        var id := AddTimer(r, 0.0, 0.0, 0.0, 0, StartFirstChild, false);
        var before := nodes;
        nodes := nodes[r := nodes[r].(kind := nodes[r].kind.(rootTimer := Some(id)))];
        SameShapeKeepsWellFormed(before, nodes);
      } else {
        log := log + [OnStopped(r, success)];
      }
    }

    method OnStoppingListener(r: NodeId)
      requires Valid() && RootNode.IsRoot(View(), r)
      modifies this
      ensures Valid() && View() == RootNode.OnStoppingListener(old(View()), r)
      decreases 1
    {
      var c := RootNode.Child(View(), r);
      if nodes[c].state == Active {
        var _ := RequestStopNode(c, false);
      } else {
        RemoveTimer(r, nodes[r].kind.rootTimer);
      }
      log := log + [OnStopped(r, true)];
    }

    method OnStoppingSilentListener(r: NodeId)
      requires Valid() && RootNode.IsRoot(View(), r)
      modifies this
      ensures Valid() && View() == RootNode.OnStoppingSilentListener(old(View()), r)
    {
      if nodes[RootNode.Child(View(), r)].state != Active {
        RemoveTimer(r, nodes[r].kind.rootTimer);
      }
    }

    /** BehaviourRootNode.UpdateRecursively; `baseResult` is what the base class's update returns. */
    method UpdateRecursively(r: NodeId, baseResult: bool) returns (updated: bool)
      requires Valid() && RootNode.IsRoot(View(), r)
      modifies this
      ensures Valid() && (View(), updated) == RootNode.UpdateRecursively(old(View()), r, baseResult)
    {
      if nodes[r].kind.isSilent {
        return false;
      }
      log := log + [BaseUpdate(r)];
      return baseResult;
    }

    method Wake(r: NodeId)
      requires Valid() && RootNode.IsRoot(View(), r)
      modifies this
      ensures Valid() && View() == RootNode.Wake(old(View()), r)
    {
      nodes := nodes[r := nodes[r].(kind := nodes[r].kind.(isSilent := false))];
      SameShapeKeepsWellFormed(old(nodes), nodes);
    }

    method Sleep(r: NodeId)
      requires Valid() && RootNode.IsRoot(View(), r)
      modifies this
      ensures Valid() && View() == RootNode.Sleep(old(View()), r)
    {
      nodes := nodes[r := nodes[r].(kind := nodes[r].kind.(isSilent := true))];
      SameShapeKeepsWellFormed(old(nodes), nodes);
    }

    // -------------------------------------------------------------------
    // BehaviourSelector
    // -------------------------------------------------------------------

    method SelectorOnChildNodeStopped(s: NodeId, success: bool)
      modifies this
      ensures View() == SelectorNode.OnChildNodeStoppedListener(old(View()), s, success)
    {
      if success {
        log := log + [Advanced(s, false)];
      } else {
        log := log + [OnStopped(s, false)];
      }
    }
  }
}
