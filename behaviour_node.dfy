/**
 * BehaviourNode: the INACTIVE/ACTIVE/STOPPING lifecycle of a behaviour-tree
 * node, its countdown timers and the process-wide elapsed-time clock.
 *
 * Every node of every tree lives in one arena (`Arena.nodes`); a reference
 * to a node is its index, and `Parent` is the index of the parent. The
 * UnityEvents a node raises are appended to `Arena.log` in the order in
 * which they are invoked. The operations here are the base-class behaviour
 * only; the listeners that the root and the selector attach to those events
 * are wired in module BehaviourTree.
 */
module Nodes {
  import opened Optional

  datatype NodeState = Inactive | Active | Stopping

  datatype NodeType = Composite | Decorator | Task

  datatype Operator =
    | IsSet | IsNotSet | IsEqual | IsNotEqual
    | IsGreaterOrEqual | IsGreater | IsSmallerOrEqual | IsSmaller
    | AlwaysTrue

  /** OperatorHelpers.ToSymbolString: a comparison prints as its symbol, anything else as its enum name. */
  function ToSymbolString(op: Operator): (s: string)
    ensures op.AlwaysTrue? <==> s == "ALWAYS_TRUE"
    ensures !op.AlwaysTrue? ==> 1 <= |s| <= 3 && forall i :: 0 <= i < |s| ==> s[i] in "?!=<>"
  {
    match op
    case IsSet => "?="
    case IsNotSet => "?!="
    case IsEqual => "=="
    case IsNotEqual => "!="
    case IsGreaterOrEqual => ">="
    case IsGreater => ">"
    case IsSmallerOrEqual => "<="
    case IsSmaller => "<"
    case AlwaysTrue => "ALWAYS_TRUE"
  }

  /** No two operators print alike, so the symbol string identifies the operator. */
  lemma ToSymbolStringInjective(a: Operator, b: Operator)
    requires ToSymbolString(a) == ToSymbolString(b)
    ensures a == b
  {
  }

  // ---------------------------------------------------------------------
  // NodeTimer
  // ---------------------------------------------------------------------

  type TimerId = nat

  /**
   * What a timer invokes when it fires: the root's StartChildNode
   * (`Children[0].StartNode()`), or a callback that lies outside this model
   * and is only recorded in the log.
   */
  datatype TimerAction = StartFirstChild | Callback(tag: nat)

  /**
   * A NodeTimer. Timer objects are distinct in the source; here each carries
   * an id, and the identity comparisons of `List.Remove` compare ids.
   */
  datatype NodeTimer = NodeTimer(
    id: TimerId,
    timeOutIn: real,
    timeOutAt: real,
    repeat: int,
    timeOutCount: int,
    autoRemove: bool,
    action: TimerAction)
  {
    /** An endless timer (`repeat == -1`) never goes inactive; any other goes inactive exactly when it has finished. */
    predicate IsActive()
      ensures repeat == -1 ==> IsActive()
      ensures repeat >= -1 ==> (!IsActive() <==> IsFinishedIntended())
    {
      repeat == -1 || timeOutCount <= repeat
    }

    /**
     * As written: true for every timer with `repeat > -1`, whatever its count,
     * and so, with a count that is never negative, true for every timer.
     */
    predicate IsFinished()
      ensures IsFinishedIntended() ==> IsFinished()
      ensures timeOutCount >= 0 ==> IsFinished()
    {
      repeat > -1 || timeOutCount > repeat
    }

    /** What IsFinished evidently means: a finite timer that has used up its repeats. */
    predicate IsFinishedIntended() {
      repeat > -1 && timeOutCount > repeat
    }

    /** A timer is due once the clock has reached its deadline, and stays due as the clock advances. */
    predicate TimeElapsed(elapsedTime: real)
      ensures TimeElapsed(elapsedTime) <==> timeOutAt <= elapsedTime
    {
      elapsedTime >= timeOutAt
    }
  }

  /** SetTimeoutIn; `roll` is the value UnityEngine.Random.value returned, a number in [0, 1]. */
  function TimeoutIn(time: real, randomVariance: real, roll: real): (r: real)
    requires 0.0 <= roll <= 1.0
    ensures randomVariance >= 0.0 ==> time - randomVariance * 0.5 <= r <= time + randomVariance * 0.5
    ensures randomVariance == 0.0 ==> r == time
  {
    time - randomVariance * 0.5 + Spread(randomVariance, roll)
  }

  /** The random part of the timeout: the variance scaled by the roll, never outside [0, variance]. */
  function Spread(v: real, roll: real): (s: real)
    requires 0.0 <= roll <= 1.0
    ensures v >= 0.0 ==> 0.0 <= s <= v
    ensures v == 0.0 ==> s == 0.0
  {
    if v >= 0.0 then (assert v * (1.0 - roll) >= 0.0; v * roll) else v * roll
  }

  /** The NodeTimer constructor: count zero, first timeout `TimeOutIn` after the current clock. */
  function NewTimer(id: TimerId, time: real, randomVariance: real, roll: real, repeat: int,
                    action: TimerAction, autoRemove: bool, elapsedTime: real): (t: NodeTimer)
    requires 0.0 <= roll <= 1.0
    ensures t.id == id && t.repeat == repeat && t.action == action && t.autoRemove == autoRemove
    ensures t.timeOutCount == 0 && t.IsActive() == (repeat >= -1)
    ensures t.timeOutIn == TimeoutIn(time, randomVariance, roll) && t.timeOutAt == elapsedTime + t.timeOutIn
    ensures randomVariance == 0.0 ==> t.timeOutIn == time && t.timeOutAt == elapsedTime + time
  {
    var timeOutIn := TimeoutIn(time, randomVariance, roll);
    NodeTimer(id, timeOutIn, elapsedTime + timeOutIn, repeat, 0, autoRemove, action)
  }

  /** What NodeTimer.Update returns (`active`), whether it invoked the action, and the updated timer. */
  datatype TimerUpdate = TimerUpdate(active: bool, fired: bool, timer: NodeTimer)

  /** NodeTimer.Update against the clock reading `elapsedTime`. */
  function UpdateTimer(t: NodeTimer, elapsedTime: real): (u: TimerUpdate)
    ensures !t.IsActive() ==> !u.active && !u.fired && u.timer == t
    ensures t.IsActive() ==> u.active && (u.fired <==> t.TimeElapsed(elapsedTime))
    ensures u.fired ==> u.timer == t.(timeOutCount := t.timeOutCount + 1, timeOutAt := elapsedTime + t.timeOutIn)
    ensures !u.fired ==> u.timer == t
  {
    if !t.IsActive() then
      TimerUpdate(false, false, t)
    else if t.TimeElapsed(elapsedTime) then
      TimerUpdate(true, true, t.(timeOutCount := t.timeOutCount + 1, timeOutAt := elapsedTime + t.timeOutIn))
    else
      TimerUpdate(true, false, t)
  }

  /** The timer after one Update per clock reading in `readings`, and how often it fired. */
  function RunTimer(t: NodeTimer, readings: seq<real>): (r: (NodeTimer, nat))
    ensures r.0.id == t.id && r.0.repeat == t.repeat && r.0.autoRemove == t.autoRemove && r.0.action == t.action
    ensures r.0.timeOutIn == t.timeOutIn
    ensures r.0.timeOutCount == t.timeOutCount + r.1
    ensures t.repeat == -1 ==> r.0.IsActive()
    decreases |readings|
  {
    if readings == [] then (t, 0)
    else
      var u := UpdateTimer(t, readings[0]);
      var rest := RunTimer(u.timer, readings[1..]);
      (rest.0, rest.1 + if u.fired then 1 else 0)
  }

  /** A timer with `repeat = r >= 0` fires at most `r + 1` times over its life. */
  lemma {:induction false} FiniteTimerFiresAtMostRepeatPlusOne(t: NodeTimer, readings: seq<real>)
    requires 0 <= t.repeat && 0 <= t.timeOutCount <= t.repeat + 1
    ensures RunTimer(t, readings).1 <= t.repeat + 1 - t.timeOutCount
    decreases |readings|
  {
    if readings != [] {
      var u := UpdateTimer(t, readings[0]);
      FiniteTimerFiresAtMostRepeatPlusOne(u.timer, readings[1..]);
    }
  }

  /**
   * A timer with `repeat = -1` never deactivates: read at its due time and
   * then at least `TimeOutIn` apart, it fires at every reading.
   */
  lemma {:induction false} EndlessTimerFiresWheneverDue(t: NodeTimer, readings: seq<real>)
    requires t.repeat == -1
    requires readings != [] ==> readings[0] >= t.timeOutAt
    requires forall i :: 0 < i < |readings| ==> readings[i] >= readings[i - 1] + t.timeOutIn
    ensures RunTimer(t, readings).0.IsActive()
    ensures RunTimer(t, readings).1 == |readings|
    decreases |readings|
  {
    if readings != [] {
      var u := UpdateTimer(t, readings[0]);
      var rest := readings[1..];
      assert forall i :: 0 < i < |rest| ==> rest[i] == readings[i + 1] && rest[i - 1] == readings[i];
      EndlessTimerFiresWheneverDue(u.timer, rest);
    }
  }

  /**
   * A one-shot timer (repeat 0, not yet fired) fires exactly once if some
   * clock reading reaches its due time, and never otherwise.
   */
  lemma {:induction false} OneShotFiresOnceWhenDue(t: NodeTimer, readings: seq<real>)
    requires t.repeat == 0 && t.timeOutCount == 0
    ensures RunTimer(t, readings).1 == if exists i :: 0 <= i < |readings| && readings[i] >= t.timeOutAt then 1 else 0
    decreases |readings|
  {
    if readings != [] {
      var u := UpdateTimer(t, readings[0]);
      if u.fired {
        FiniteTimerFiresAtMostRepeatPlusOne(u.timer, readings[1..]);
      } else {
        OneShotFiresOnceWhenDue(t, readings[1..]);
        if exists i :: 0 <= i < |readings| && readings[i] >= t.timeOutAt {
          var i :| 0 <= i < |readings| && readings[i] >= t.timeOutAt;
          assert i != 0;
          assert readings[1..][i - 1] == readings[i];
        }
        if exists i :: 0 <= i < |readings[1..]| && readings[1..][i] >= t.timeOutAt {
          var i :| 0 <= i < |readings[1..]| && readings[1..][i] >= t.timeOutAt;
          assert readings[i + 1] == readings[1..][i];
        }
      }
    }
  }

  // ---------------------------------------------------------------------
  // Nodes, events and the arena
  // ---------------------------------------------------------------------

  type NodeId = nat

  /**
   * The run-time class of a node: BehaviourRootNode with its private
   * `IsSilent` and `m_rootTimer` fields, BehaviourSelector, or any other
   * node class, whose listeners are not part of this model.
   */
  datatype NodeKind =
    | Plain
    | Root(isSilent: bool, rootTimer: Option<TimerId>)
    | Selector(isRandom: bool)

  datatype Node = Node(
    name: string,
    nodeType: NodeType,
    kind: NodeKind,
    state: NodeState,
    result: Option<bool>,
    parent: Option<NodeId>,
    children: seq<NodeId>,
    timers: seq<NodeTimer>)

  /** The BehaviourNode constructor: INACTIVE, no result, no parent, no timers. */
  function NewNode(name: string, nodeType: NodeType, kind: NodeKind): (n: Node)
    ensures n.state == Inactive && n.result.None? && n.parent.None? && n.timers == []
    ensures n.name == name && n.nodeType == nodeType && n.kind == kind
  {
    Node(name, nodeType, kind, Inactive, None, None, [], [])
  }

  /**
   * An invocation of a node's UnityEvent (the first six, and the parent's
   * child-stopped channels), or a call into a base class that is not part
   * of this model (`Advanced`, `BaseUpdate`), or a timer callback.
   */
  datatype Event =
    | OnStarted(node: NodeId)
    | OnStartedSilent(node: NodeId)
    | OnStopping(node: NodeId)
    | OnStoppingSilent(node: NodeId)
    | OnStopped(node: NodeId, success: bool)
    | OnStoppedSilent(node: NodeId, success: bool)
    | OnChildNodeStopped(node: NodeId, child: NodeId, success: bool)
    | OnChildNodeStoppedSilent(node: NodeId, child: NodeId, success: bool)
    | Advanced(node: NodeId, flag: bool)
    | TimerCallback(node: NodeId, tag: nat)
    | BaseUpdate(node: NodeId)

  /** Every node object, the event log, the static ElapsedTime and the next fresh timer id. */
  datatype Arena = Arena(nodes: seq<Node>, log: seq<Event>, elapsedTime: real, nextTimerId: TimerId)

  /**
   * The shape every tree has: parents exist; a root has no parent (its
   * SetParent always throws) and a first child that is not a root.
   */
  predicate NodeWellFormed(nodes: seq<Node>, i: nat)
    requires i < |nodes|
  {
    var n := nodes[i];
    && (n.parent.Some? ==> n.parent.value < |nodes|)
    && (n.kind.Root? ==>
          n.parent.None? && |n.children| > 0 && n.children[0] < |nodes| && !nodes[n.children[0]].kind.Root?)
  }

  predicate WellFormed(nodes: seq<Node>) {
    forall i :: 0 <= i < |nodes| ==> NodeWellFormed(nodes, i)
  }

  /** The same nodes with the same links and the same root/non-root classes. */
  predicate SameShape(nodes: seq<Node>, nodes': seq<Node>) {
    && |nodes'| == |nodes|
    && forall i :: 0 <= i < |nodes| ==>
         && nodes'[i].parent == nodes[i].parent
         && nodes'[i].children == nodes[i].children
         && nodes'[i].kind.Root? == nodes[i].kind.Root?
  }

  lemma SameShapeKeepsWellFormed(nodes: seq<Node>, nodes': seq<Node>)
    requires WellFormed(nodes) && SameShape(nodes, nodes')
    ensures WellFormed(nodes')
  {
    forall i | 0 <= i < |nodes'| ensures NodeWellFormed(nodes', i) {
      assert NodeWellFormed(nodes, i);
    }
  }

  function SetNode(a: Arena, id: NodeId, n: Node): (r: Arena)
    requires id < |a.nodes|
  {
    a.(nodes := a.nodes[id := n])
  }

  function Emit(a: Arena, e: Event): (r: Arena) {
    a.(log := a.log + [e])
  }

  /** Whether a node may start: it is INACTIVE and its parent is absent or ACTIVE. */
  predicate CanStart(nodes: seq<Node>, id: NodeId)
    requires WellFormed(nodes) && id < |nodes|
    ensures CanStart(nodes, id) ==> nodes[id].state == Inactive
    ensures nodes[id].parent.None? ==> (CanStart(nodes, id) <==> nodes[id].state == Inactive)
    ensures nodes[id].parent.Some? && nodes[nodes[id].parent.value].state != Active ==> !CanStart(nodes, id)
  {
    assert NodeWellFormed(nodes, id);
    var n := nodes[id];
    n.state == Inactive && (n.parent.None? || nodes[n.parent.value].state == Active)
  }

  /**
   * BehaviourNode.StartNode: succeeds exactly when CanStart; then ACTIVE with
   * no result, and exactly one of OnStarted / OnStartedSilent is raised.
   * On failure nothing changes.
   */
  function BaseStart(a: Arena, id: NodeId, silent: bool): (r: (Arena, bool))
    requires WellFormed(a.nodes) && id < |a.nodes|
    ensures r.1 == CanStart(a.nodes, id)
    ensures r.1 ==> && r.0.nodes == a.nodes[id := a.nodes[id].(state := Active, result := None)]
                    && r.0.log == a.log + [if silent then OnStartedSilent(id) else OnStarted(id)]
    ensures !r.1 ==> r.0 == a
    ensures SameShape(a.nodes, r.0.nodes) && WellFormed(r.0.nodes)
    ensures r.0.elapsedTime == a.elapsedTime && r.0.nextTimerId == a.nextTimerId
  {
    if !CanStart(a.nodes, id) then (a, false)
    else
      var a1 := SetNode(a, id, a.nodes[id].(result := None, state := Active));
      SameShapeKeepsWellFormed(a.nodes, a1.nodes);
      (Emit(a1, if silent then OnStartedSilent(id) else OnStarted(id)), true)
  }

  /**
   * BehaviourNode.RequestStopNode: ACTIVE becomes STOPPING and OnStopping
   * (or OnStoppingSilent) is raised; from any other state it returns false
   * and changes nothing.
   */
  function BaseRequestStop(a: Arena, id: NodeId, silent: bool): (r: (Arena, bool))
    requires WellFormed(a.nodes) && id < |a.nodes|
    ensures r.1 == (a.nodes[id].state == Active)
    ensures r.1 ==> && r.0.nodes == a.nodes[id := a.nodes[id].(state := Stopping)]
                    && r.0.log == a.log + [if silent then OnStoppingSilent(id) else OnStopping(id)]
    ensures !r.1 ==> r.0 == a
    ensures SameShape(a.nodes, r.0.nodes) && WellFormed(r.0.nodes)
    ensures r.0.elapsedTime == a.elapsedTime && r.0.nextTimerId == a.nextTimerId
  {
    if a.nodes[id].state != Active then (a, false)
    else
      var a1 := SetNode(a, id, a.nodes[id].(state := Stopping));
      SameShapeKeepsWellFormed(a.nodes, a1.nodes);
      (Emit(a1, if silent then OnStoppingSilent(id) else OnStopping(id)), true)
  }

  /**
   * BehaviourNode.StopNode up to the parent's listeners: from ACTIVE or
   * STOPPING the node becomes INACTIVE with the given result, raises its own
   * stopped event and then its parent's matching child-stopped channel.
   * From INACTIVE it returns false and raises nothing.
   */
  function BaseStop(a: Arena, id: NodeId, success: bool, silent: bool): (r: (Arena, bool))
    requires WellFormed(a.nodes) && id < |a.nodes|
    ensures r.1 == (a.nodes[id].state != Inactive)
    ensures r.1 ==> && r.0.nodes == a.nodes[id := a.nodes[id].(state := Inactive, result := Some(success))]
                    && r.0.log == a.log + [if silent then OnStoppedSilent(id, success) else OnStopped(id, success)]
                                        + ParentNotice(a.nodes[id].parent, id, success, silent)
    ensures !r.1 ==> r.0 == a
    ensures SameShape(a.nodes, r.0.nodes) && WellFormed(r.0.nodes)
    ensures r.0.elapsedTime == a.elapsedTime && r.0.nextTimerId == a.nextTimerId
  {
    if a.nodes[id].state == Inactive then (a, false)
    else
      var n := a.nodes[id];
      var a1 := SetNode(a, id, n.(state := Inactive, result := Some(success)));
      SameShapeKeepsWellFormed(a.nodes, a1.nodes);
      var a2 := Emit(a1, if silent then OnStoppedSilent(id, success) else OnStopped(id, success));
      (a2.(log := a2.log + ParentNotice(n.parent, id, success, silent)), true)
  }

  /** `Parent?.OnChildNodeStopped(Silent).Invoke(this, success)`: nothing when there is no parent. */
  function ParentNotice(parent: Option<NodeId>, child: NodeId, success: bool, silent: bool): (es: seq<Event>)
    ensures parent.None? <==> es == []
  {
    match parent
    case None => []
    case Some(p) => [if silent then OnChildNodeStoppedSilent(p, child, success) else OnChildNodeStopped(p, child, success)]
  }

  /**
   * BehaviourNode.SetParent (for a node that is not a root): a TASK cannot
   * be a parent; otherwise Parent is set, and no parent at all is allowed.
   */
  function BaseSetParent(a: Arena, id: NodeId, parent: Option<NodeId>): (r: Result<Arena>)
    requires WellFormed(a.nodes) && id < |a.nodes| && !a.nodes[id].kind.Root?
    requires parent.Some? ==> parent.value < |a.nodes|
    ensures r.Thrown? <==> parent.Some? && a.nodes[parent.value].nodeType == Task
    ensures r.Ok? ==> r.value == SetNode(a, id, a.nodes[id].(parent := parent)) && WellFormed(r.value.nodes)
  {
    if parent.Some? && a.nodes[parent.value].nodeType == Task then Thrown("Tasks don`t have children")
    else
      var r := SetNode(a, id, a.nodes[id].(parent := parent));
      SetParentKeepsWellFormed(a.nodes, id, parent);
      Ok(r)
  }

  lemma SetParentKeepsWellFormed(nodes: seq<Node>, id: NodeId, parent: Option<NodeId>)
    requires WellFormed(nodes) && id < |nodes| && !nodes[id].kind.Root?
    requires parent.Some? ==> parent.value < |nodes|
    ensures WellFormed(nodes[id := nodes[id].(parent := parent)])
  {
    var nodes' := nodes[id := nodes[id].(parent := parent)];
    forall i | 0 <= i < |nodes'| ensures NodeWellFormed(nodes', i) {
      assert NodeWellFormed(nodes, i);
    }
  }

  // ---------------------------------------------------------------------
  // GetRoot
  // ---------------------------------------------------------------------

  /** The node `k` parent links above `id` (k = 0 is `id` itself), or None once the chain has ended. */
  ghost function Ancestor(nodes: seq<Node>, id: NodeId, k: nat): Option<NodeId>
    decreases k
  {
    if id >= |nodes| then None
    else if k == 0 then Some(id)
    else match nodes[id].parent
      case None => None
      case Some(p) => Ancestor(nodes, p, k - 1)
  }

  ghost predicate IsRootAt(nodes: seq<Node>, o: Option<NodeId>) {
    o.Some? && o.value < |nodes| && nodes[o.value].kind.Root?
  }

  /**
   * Following at most `steps` parent links from `id` reaches a root or a
   * node without a parent: the recursion of GetRoot ends.
   */
  predicate ChainEnds(nodes: seq<Node>, id: NodeId, steps: nat)
    decreases steps
  {
    && id < |nodes|
    && (|| nodes[id].kind.Root?
        || nodes[id].parent.None?
        || (steps > 0 && ChainEnds(nodes, nodes[id].parent.value, steps - 1)))
  }

  /** The `k`-th ancestor of `id` is a root and no nearer one is. */
  ghost predicate NearestRootAt(nodes: seq<Node>, id: NodeId, k: nat) {
    && IsRootAt(nodes, Ancestor(nodes, id, k))
    && forall j :: 0 <= j < k ==> !IsRootAt(nodes, Ancestor(nodes, id, j))
  }

  /**
   * BehaviourNode.GetRoot: the node itself when it is a root, otherwise the
   * nearest root among its ancestors, and None when no node on the parent
   * chain is a root.
   */
  function GetRoot(nodes: seq<Node>, id: NodeId, ghost steps: nat): (r: Option<NodeId>)
    requires ChainEnds(nodes, id, steps)
    ensures r.Some? ==> exists k :: 0 <= k <= steps && Ancestor(nodes, id, k) == r && NearestRootAt(nodes, id, k)
    ensures r.None? ==> forall k :: 0 <= k <= steps ==> !IsRootAt(nodes, Ancestor(nodes, id, k))
    decreases steps
  {
    var n := nodes[id];
    if n.kind.Root? then
      assert Ancestor(nodes, id, 0) == Some(id) && NearestRootAt(nodes, id, 0);
      Some(id)
    else if n.parent.None? then
      assert forall k :: 1 <= k ==> Ancestor(nodes, id, k).None?;
      None
    else
      var p := n.parent.value;
      assert ChainEnds(nodes, p, steps - 1);
      var found := GetRoot(nodes, p, steps - 1);
      assert Ancestor(nodes, id, 0) == Some(id);
      assert forall k :: 1 <= k ==> Ancestor(nodes, id, k) == Ancestor(nodes, p, k - 1);
      assert found.Some? ==> exists k :: 0 <= k <= steps && Ancestor(nodes, id, k) == found && NearestRootAt(nodes, id, k) by {
        if found.Some? {
          var k' :| 0 <= k' <= steps - 1 && Ancestor(nodes, p, k') == found && NearestRootAt(nodes, p, k');
          assert Ancestor(nodes, id, k' + 1) == found;
          forall j | 0 <= j < k' + 1
            ensures !IsRootAt(nodes, Ancestor(nodes, id, j))
          {
            if j > 0 {
              assert Ancestor(nodes, id, j) == Ancestor(nodes, p, j - 1);
            }
          }
          assert NearestRootAt(nodes, id, k' + 1);
        }
      }
      found
  }

  /** A node that is its own parent and no root sends GetRoot round forever. */
  lemma {:induction false} SelfParentNeverEnds(nodes: seq<Node>, id: NodeId, steps: nat)
    requires id < |nodes| && nodes[id].parent == Some(id) && !nodes[id].kind.Root?
    ensures !ChainEnds(nodes, id, steps)
    decreases steps
  {
    if steps > 0 {
      SelfParentNeverEnds(nodes, id, steps - 1);
    }
  }

  /**
   * GetRoot terminates on an acyclic parent chain: if `steps + 1` links
   * from `id` run past the top of the chain, `steps` steps suffice.
   */
  lemma {:induction false} ChainEndsWhenAncestorsRunOut(nodes: seq<Node>, id: NodeId, steps: nat)
    requires WellFormed(nodes) && id < |nodes| && Ancestor(nodes, id, steps + 1).None?
    ensures ChainEnds(nodes, id, steps)
    decreases steps
  {
    var n := nodes[id];
    if !n.kind.Root? && n.parent.Some? {
      assert NodeWellFormed(nodes, id);
      var p := n.parent.value;
      assert Ancestor(nodes, id, steps + 1) == Ancestor(nodes, p, steps);
      if steps > 0 {
        ChainEndsWhenAncestorsRunOut(nodes, p, steps - 1);
      }
    }
  }

  // ---------------------------------------------------------------------
  // The timer list of a node
  // ---------------------------------------------------------------------

  function SetTimers(a: Arena, k: NodeId, ts: seq<NodeTimer>): (r: Arena)
    requires k < |a.nodes|
    ensures SameShape(a.nodes, r.nodes)
  {
    SetNode(a, k, a.nodes[k].(timers := ts))
  }

  /** AddTimer: a fresh timer appended to node `k`'s list; its id is returned. */
  function AddTimer(a: Arena, k: NodeId, time: real, randomVariance: real, roll: real, repeat: int,
                    action: TimerAction, autoRemove: bool): (r: (Arena, TimerId))
    requires k < |a.nodes| && 0.0 <= roll <= 1.0
    ensures r.1 == a.nextTimerId && r.0.nextTimerId == a.nextTimerId + 1
    ensures r.0.nodes == a.nodes[k := a.nodes[k].(timers := a.nodes[k].timers
                                 + [NewTimer(r.1, time, randomVariance, roll, repeat, action, autoRemove, a.elapsedTime)])]
    ensures r.0.log == a.log && r.0.elapsedTime == a.elapsedTime
  {
    var t := NewTimer(a.nextTimerId, time, randomVariance, roll, repeat, action, autoRemove, a.elapsedTime);
    (SetTimers(a, k, a.nodes[k].timers + [t]).(nextTimerId := a.nextTimerId + 1), a.nextTimerId)
  }

  /** RunOnNextTick: a zero-delay, zero-repeat timer marked for automatic removal. */
  function RunOnNextTick(a: Arena, k: NodeId, action: TimerAction): (r: Arena)
    requires k < |a.nodes|
    ensures r.nodes == a.nodes[k := a.nodes[k].(timers := a.nodes[k].timers
                                 + [NewTimer(a.nextTimerId, 0.0, 0.0, 0.0, 0, action, true, a.elapsedTime)])]
    ensures r.log == a.log && r.elapsedTime == a.elapsedTime && r.nextTimerId == a.nextTimerId + 1
    ensures |r.nodes| == |a.nodes| && |r.nodes[k].timers| > 0
    ensures var t := r.nodes[k].timers[|r.nodes[k].timers| - 1];
            && |r.nodes[k].timers| == |a.nodes[k].timers| + 1
            && t.repeat == 0 && t.autoRemove && t.timeOutCount == 0 && t.timeOutAt == a.elapsedTime
  {
    AddTimer(a, k, 0.0, 0.0, 0.0, 0, action, true).0
  }

  /** The position of the first timer with the given id, or |ts| when there is none. */
  function IndexOfTimer(ts: seq<NodeTimer>, id: TimerId): (k: nat)
    ensures k <= |ts|
    ensures k < |ts| ==> ts[k].id == id
    ensures forall j :: 0 <= j < k ==> ts[j].id != id
  {
    if ts == [] then 0
    else if ts[0].id == id then 0
    else 1 + IndexOfTimer(ts[1..], id)
  }

  /** `List.Remove`: the first timer with that id goes; a missing timer (or null) changes nothing. */
  function RemoveTimerFrom(ts: seq<NodeTimer>, id: Option<TimerId>): (r: seq<NodeTimer>)
    ensures id.None? ==> r == ts
    ensures id.Some? && IndexOfTimer(ts, id.value) == |ts| ==> r == ts
    ensures id.Some? && IndexOfTimer(ts, id.value) < |ts| ==>
              var k := IndexOfTimer(ts, id.value); r == ts[..k] + ts[k + 1..]
  {
    match id
    case None => ts
    case Some(i) =>
      var k := IndexOfTimer(ts, i);
      if k == |ts| then ts else ts[..k] + ts[k + 1..]
  }

  /** RemoveTimer: the owner's list loses the timer as `List.Remove` has it; nothing else changes. */
  function RemoveTimer(a: Arena, k: NodeId, id: Option<TimerId>): (r: Arena)
    requires k < |a.nodes|
    ensures r.nodes == a.nodes[k := a.nodes[k].(timers := RemoveTimerFrom(a.nodes[k].timers, id))]
    ensures SameShape(a.nodes, r.nodes) && r.log == a.log && r.elapsedTime == a.elapsedTime && r.nextTimerId == a.nextTimerId
  {
    SetTimers(a, k, RemoveTimerFrom(a.nodes[k].timers, id))
  }

  /**
   * Invokes a fired timer's action for its owner `k`: a root starts its
   * first child (a node that is not a root, so no listener of this model
   * reacts); a callback is recorded.
   */
  function RunAction(a: Arena, k: NodeId, action: TimerAction): (r: Arena)
    requires WellFormed(a.nodes) && k < |a.nodes|
    ensures SameShape(a.nodes, r.nodes) && r.elapsedTime == a.elapsedTime && r.nextTimerId == a.nextTimerId
    ensures r.nodes[k] == a.nodes[k]
    ensures forall j :: 0 <= j < |a.nodes| && j != k && !(a.nodes[k].kind.Root? && |a.nodes[k].children| > 0 && j == a.nodes[k].children[0])
                        ==> r.nodes[j] == a.nodes[j]
    ensures action.StartFirstChild? && a.nodes[k].kind.Root? ==>
              |a.nodes[k].children| > 0 && a.nodes[k].children[0] < |a.nodes|
              && r == BaseStart(a, a.nodes[k].children[0], false).0
    ensures action.StartFirstChild? && !a.nodes[k].kind.Root? ==> r == a
    ensures action.Callback? ==> r == a.(log := a.log + [TimerCallback(k, action.tag)])
  {
    assert NodeWellFormed(a.nodes, k);
    match action
    case StartFirstChild =>
      if a.nodes[k].kind.Root? then
        assert NodeWellFormed(a.nodes, k);
        BaseStart(a, a.nodes[k].children[0], false).0
      else a
    case Callback(tag) => Emit(a, TimerCallback(k, tag))
  }

  /**
   * Which finished-test the pruning loop applies: IsFinished as the program
   * has it, or the intended one (see IsFinishedIntended).
   */
  datatype FinishRule = AsWritten | Intended

  /** The loop's removal test: finished under `rule`, and marked AutoRemove. */
  predicate Pruned(t: NodeTimer, rule: FinishRule) {
    && (if rule == AsWritten then t.IsFinished() else t.IsFinishedIntended())
    && t.autoRemove
  }

  /** The loop's removal: timer `i` of node `k` leaves the list where it stands. */
  function PruneAt(a: Arena, k: NodeId, i: nat): (r: Arena)
    requires WellFormed(a.nodes) && k < |a.nodes| && i < |a.nodes[k].timers|
    ensures WellFormed(r.nodes) && SameShape(a.nodes, r.nodes)
    ensures r.nodes == a.nodes[k := a.nodes[k].(timers := a.nodes[k].timers[..i] + a.nodes[k].timers[i + 1..])]
    ensures r.log == a.log && r.elapsedTime == a.elapsedTime && r.nextTimerId == a.nextTimerId
  {
    var ts := a.nodes[k].timers;
    var r := SetTimers(a, k, ts[..i] + ts[i + 1..]);
    SameShapeKeepsWellFormed(a.nodes, r.nodes);
    r
  }

  /**
   * The loop's update: timer `i` of node `k` is updated in place and, if it
   * fired, its action runs, touching no node but a root's first child.
   */
  function StepAt(a: Arena, k: NodeId, i: nat): (r: Arena)
    requires WellFormed(a.nodes) && k < |a.nodes| && i < |a.nodes[k].timers|
    ensures WellFormed(r.nodes) && SameShape(a.nodes, r.nodes)
    ensures r.elapsedTime == a.elapsedTime && r.nextTimerId == a.nextTimerId
    ensures r.nodes[k] == a.nodes[k].(timers := a.nodes[k].timers[i := UpdateTimer(a.nodes[k].timers[i], a.elapsedTime).timer])
    ensures forall j :: 0 <= j < |a.nodes| && j != k && !(a.nodes[k].kind.Root? && |a.nodes[k].children| > 0 && j == a.nodes[k].children[0])
                        ==> r.nodes[j] == a.nodes[j]
  {
    var ts := a.nodes[k].timers;
    var u := UpdateTimer(ts[i], a.elapsedTime);
    var a1 := if u.fired then RunAction(a, k, ts[i].action) else a;
    SameShapeKeepsWellFormed(a.nodes, a1.nodes);
    var a2 := SetTimers(a1, k, ts[i := u.timer]);
    SameShapeKeepsWellFormed(a1.nodes, a2.nodes);
    a2
  }

  /**
   * The loop of UpdateTimers from position `i` on: a timer that IsFinished
   * and AutoRemove is removed where it stands (the index is not advanced);
   * any other timer is updated in place, its action run if it fired.
   */
  function UpdateTimersFrom(a: Arena, k: NodeId, i: nat, rule: FinishRule): (r: Arena)
    requires WellFormed(a.nodes) && k < |a.nodes| && i <= |a.nodes[k].timers|
    ensures SameShape(a.nodes, r.nodes) && r.elapsedTime == a.elapsedTime && r.nextTimerId == a.nextTimerId
    ensures i <= |r.nodes[k].timers| && r.nodes[k].timers[..i] == a.nodes[k].timers[..i]
    ensures r.nodes[k] == a.nodes[k].(timers := r.nodes[k].timers)
    decreases |a.nodes[k].timers| - i
  {
    var ts := a.nodes[k].timers;
    if i == |ts| then a
    else if Pruned(ts[i], rule) then
      var a1 := PruneAt(a, k, i);
      assert a1.nodes[k].timers[..i] == ts[..i];
      UpdateTimersFrom(a1, k, i, rule)
    else
      var a2 := StepAt(a, k, i);
      assert a2.nodes[k].timers[..i] == ts[..i];
      var r := UpdateTimersFrom(a2, k, i + 1, rule);
      assert r.nodes[k].timers[..i] == r.nodes[k].timers[..i + 1][..i];
      r
  }

  /**
   * BehaviourNode.UpdateTimers for node `k`: the actions of the timers that
   * fire run in list order, its timer list becomes the survivors of one
   * pass, and no node but `k` and (through a fired StartFirstChild) a
   * root's first child is touched.
   */
  function UpdateTimers(a: Arena, k: NodeId): (r: Arena)
    requires WellFormed(a.nodes) && k < |a.nodes|
    ensures r == SetTimers(RunActions(a, k, FiredActions(a.nodes[k].timers, a.elapsedTime, AsWritten)),
                           k, Survivors(a.nodes[k].timers, a.elapsedTime, AsWritten))
    ensures SameShape(a.nodes, r.nodes) && WellFormed(r.nodes)
    ensures r.elapsedTime == a.elapsedTime && r.nextTimerId == a.nextTimerId
    ensures r.nodes[k] == a.nodes[k].(timers := Survivors(a.nodes[k].timers, a.elapsedTime, AsWritten))
    ensures forall j :: 0 <= j < |a.nodes| && j != k && !(a.nodes[k].kind.Root? && j == a.nodes[k].children[0])
                        ==> r.nodes[j] == a.nodes[j]
  {
    var r := UpdateTimersFrom(a, k, 0, AsWritten);
    SameShapeKeepsWellFormed(a.nodes, r.nodes);
    UpdateTimersFromKeepsSurvivors(a, k, 0, AsWritten);
    assert a.nodes[k].timers[0..] == a.nodes[k].timers;
    UpdateTimersFromRunsFired(a, k, 0, AsWritten);
    forall j | 0 <= j < |a.nodes| && j != k && !(a.nodes[k].kind.Root? && j == a.nodes[k].children[0])
      ensures r.nodes[j] == a.nodes[j]
    {
      assert NodeWellFormed(a.nodes, k);
      UpdateTimersFromFrame(a, k, 0, AsWritten, j);
    }
    r
  }

  /** Reference definition of the timers that survive one pass, each updated once, in their order. */
  function Survivors(ts: seq<NodeTimer>, elapsedTime: real, rule: FinishRule): seq<NodeTimer>
  {
    if ts == [] then []
    else (if Pruned(ts[0], rule) then [] else [UpdateTimer(ts[0], elapsedTime).timer])
         + Survivors(ts[1..], elapsedTime, rule)
  }

  /**
   * UpdateTimers keeps exactly the timers that are not (IsFinished and
   * AutoRemove), in their order, each updated once against the clock.
   */
  lemma {:induction false} UpdateTimersFromKeepsSurvivors(a: Arena, k: NodeId, i: nat, rule: FinishRule)
    requires WellFormed(a.nodes) && k < |a.nodes| && i <= |a.nodes[k].timers|
    ensures UpdateTimersFrom(a, k, i, rule).nodes[k].timers
            == a.nodes[k].timers[..i] + Survivors(a.nodes[k].timers[i..], a.elapsedTime, rule)
    decreases |a.nodes[k].timers| - i
  {
    var ts := a.nodes[k].timers;
    if i == |ts| {
      assert ts[i..] == [];
    } else if Pruned(ts[i], rule) {
      var a1 := PruneAt(a, k, i);
      UpdateTimersFromKeepsSurvivors(a1, k, i, rule);
      PrunedStepKeepsSurvivors(a, k, i, rule, UpdateTimersFrom(a1, k, i, rule).nodes[k].timers);
    } else {
      var a2 := StepAt(a, k, i);
      UpdateTimersFromKeepsSurvivors(a2, k, i + 1, rule);
      UpdatedStepKeepsSurvivors(a, k, i, rule, UpdateTimersFrom(a2, k, i + 1, rule).nodes[k].timers);
    }
  }

  /** The removal step of UpdateTimersFromKeepsSurvivors, given the rest of the loop. */
  lemma PrunedStepKeepsSurvivors(a: Arena, k: NodeId, i: nat, rule: FinishRule, out: seq<NodeTimer>)
    requires WellFormed(a.nodes) && k < |a.nodes| && i < |a.nodes[k].timers|
    requires Pruned(a.nodes[k].timers[i], rule)
    requires out == PruneAt(a, k, i).nodes[k].timers[..i]
                    + Survivors(PruneAt(a, k, i).nodes[k].timers[i..], a.elapsedTime, rule)
    ensures out == a.nodes[k].timers[..i] + Survivors(a.nodes[k].timers[i..], a.elapsedTime, rule)
  {
    var ts := a.nodes[k].timers;
    SurvivorsStep(ts, i, a.elapsedTime, rule);
    var ts1 := PruneAt(a, k, i).nodes[k].timers;
    assert ts1[..i] == ts[..i];
    assert ts1[i..] == ts[i + 1..];
  }

  /** The update step of UpdateTimersFromKeepsSurvivors, given the rest of the loop. */
  lemma UpdatedStepKeepsSurvivors(a: Arena, k: NodeId, i: nat, rule: FinishRule, out: seq<NodeTimer>)
    requires WellFormed(a.nodes) && k < |a.nodes| && i < |a.nodes[k].timers|
    requires !Pruned(a.nodes[k].timers[i], rule)
    requires out == StepAt(a, k, i).nodes[k].timers[..i + 1]
                    + Survivors(StepAt(a, k, i).nodes[k].timers[i + 1..], a.elapsedTime, rule)
    ensures out == a.nodes[k].timers[..i] + Survivors(a.nodes[k].timers[i..], a.elapsedTime, rule)
  {
    var ts := a.nodes[k].timers;
    SurvivorsStep(ts, i, a.elapsedTime, rule);
    var t := UpdateTimer(ts[i], a.elapsedTime).timer;
    var ts2 := StepAt(a, k, i).nodes[k].timers;
    assert ts2[..i + 1] == ts[..i] + [t];
    assert ts2[i + 1..] == ts[i + 1..];
    var rest := Survivors(ts[i + 1..], a.elapsedTime, rule);
    assert (ts[..i] + [t]) + rest == ts[..i] + ([t] + rest);
  }

  /** One step of Survivors on a suffix of the list. */
  lemma SurvivorsStep(ts: seq<NodeTimer>, i: nat, elapsedTime: real, rule: FinishRule)
    requires i < |ts|
    ensures Survivors(ts[i..], elapsedTime, rule)
            == (if Pruned(ts[i], rule) then [] else [UpdateTimer(ts[i], elapsedTime).timer])
               + Survivors(ts[i + 1..], elapsedTime, rule)
  {
    assert ts[i..][1..] == ts[i + 1..];
  }

  /** UpdateTimers leaves every node other than `k` and `k`'s first child as it was. */
  lemma {:induction false} UpdateTimersFromFrame(a: Arena, k: NodeId, i: nat, rule: FinishRule, j: NodeId)
    requires WellFormed(a.nodes) && k < |a.nodes| && i <= |a.nodes[k].timers|
    requires j < |a.nodes| && j != k && !(a.nodes[k].kind.Root? && |a.nodes[k].children| > 0 && j == a.nodes[k].children[0])
    ensures UpdateTimersFrom(a, k, i, rule).nodes[j] == a.nodes[j]
    decreases |a.nodes[k].timers| - i
  {
    var ts := a.nodes[k].timers;
    if i == |ts| {
    } else if Pruned(ts[i], rule) {
      UpdateTimersFromFrame(PruneAt(a, k, i), k, i, rule, j);
    } else {
      UpdateTimersFromFrame(StepAt(a, k, i), k, i + 1, rule, j);
    }
  }

  /** Reference definition of the actions that fire during one pass, in the order of the list. */
  function FiredActions(ts: seq<NodeTimer>, elapsedTime: real, rule: FinishRule): seq<TimerAction>
  {
    if ts == [] then []
    else (if !Pruned(ts[0], rule) && UpdateTimer(ts[0], elapsedTime).fired then [ts[0].action] else [])
         + FiredActions(ts[1..], elapsedTime, rule)
  }

  /** One step of FiredActions on a suffix of the list. */
  lemma FiredActionsStep(ts: seq<NodeTimer>, i: nat, elapsedTime: real, rule: FinishRule)
    requires i < |ts|
    ensures FiredActions(ts[i..], elapsedTime, rule)
            == (if !Pruned(ts[i], rule) && UpdateTimer(ts[i], elapsedTime).fired then [ts[i].action] else [])
               + FiredActions(ts[i + 1..], elapsedTime, rule)
  {
    assert ts[i..][1..] == ts[i + 1..];
  }

  /** The actions `acts` run one after another for owner `k`. */
  function RunActions(a: Arena, k: NodeId, acts: seq<TimerAction>): (r: Arena)
    requires WellFormed(a.nodes) && k < |a.nodes|
    ensures WellFormed(r.nodes) && SameShape(a.nodes, r.nodes)
    ensures r.elapsedTime == a.elapsedTime && r.nextTimerId == a.nextTimerId
    ensures r.nodes[k] == a.nodes[k]
    decreases |acts|
  {
    if acts == [] then a
    else
      var a1 := RunAction(a, k, acts[0]);
      SameShapeKeepsWellFormed(a.nodes, a1.nodes);
      RunActions(a1, k, acts[1..])
  }

  /** The TimerCallback entries that the callbacks among `acts` record for owner `k`, in order. */
  function CallbackLog(k: NodeId, acts: seq<TimerAction>): seq<Event>
  {
    if acts == [] then []
    else (if acts[0].Callback? then [TimerCallback(k, acts[0].tag)] else []) + CallbackLog(k, acts[1..])
  }

  /** For an owner that is not a root, the actions only append their callbacks to the log. */
  lemma {:induction false} RunActionsOnPlainOwner(a: Arena, k: NodeId, acts: seq<TimerAction>)
    requires WellFormed(a.nodes) && k < |a.nodes| && !a.nodes[k].kind.Root?
    ensures RunActions(a, k, acts) == a.(log := a.log + CallbackLog(k, acts))
    decreases |acts|
  {
    if acts != [] {
      var head := if acts[0].Callback? then [TimerCallback(k, acts[0].tag)] else [];
      var a1 := RunAction(a, k, acts[0]);
      assert a1 == a.(log := a.log + head);
      SameShapeKeepsWellFormed(a.nodes, a1.nodes);
      RunActionsOnPlainOwner(a1, k, acts[1..]);
      var rest := CallbackLog(k, acts[1..]);
      assert CallbackLog(k, acts) == head + rest;
      assert (a.log + head) + rest == a.log + (head + rest);
    }
  }

  /** A timer's action does not read its owner's timer list. */
  lemma RunActionAfterSetTimers(a: Arena, k: NodeId, ts: seq<NodeTimer>, action: TimerAction)
    requires WellFormed(a.nodes) && k < |a.nodes|
    ensures WellFormed(SetTimers(a, k, ts).nodes)
    ensures RunAction(SetTimers(a, k, ts), k, action) == SetTimers(RunAction(a, k, action), k, ts)
  {
    var b := SetTimers(a, k, ts);
    SameShapeKeepsWellFormed(a.nodes, b.nodes);
    if action.StartFirstChild? && a.nodes[k].kind.Root? {
      assert NodeWellFormed(a.nodes, k);
      var c := a.nodes[k].children[0];
      assert c != k;
      assert NodeWellFormed(a.nodes, c);
      assert CanStart(b.nodes, c) == CanStart(a.nodes, c);
      if CanStart(a.nodes, c) {
        var n := a.nodes[c].(state := Active, result := None);
        assert b.nodes[c := n] == a.nodes[c := n][k := a.nodes[k].(timers := ts)];
      }
    }
  }

  /** Nor does a run of actions. */
  lemma {:induction false} RunActionsAfterSetTimers(a: Arena, k: NodeId, ts: seq<NodeTimer>, acts: seq<TimerAction>)
    requires WellFormed(a.nodes) && k < |a.nodes|
    ensures WellFormed(SetTimers(a, k, ts).nodes)
    ensures RunActions(SetTimers(a, k, ts), k, acts) == SetTimers(RunActions(a, k, acts), k, ts)
    decreases |acts|
  {
    RunActionAfterSetTimers(a, k, ts, if acts == [] then StartFirstChild else acts[0]);
    if acts != [] {
      var a1 := RunAction(a, k, acts[0]);
      SameShapeKeepsWellFormed(a.nodes, a1.nodes);
      RunActionsAfterSetTimers(a1, k, ts, acts[1..]);
    }
  }

  /** Nor the timer id counter. */
  lemma {:induction false} RunActionsIgnoresNextTimerId(a: Arena, k: NodeId, acts: seq<TimerAction>, n: TimerId)
    requires WellFormed(a.nodes) && k < |a.nodes|
    ensures RunActions(a.(nextTimerId := n), k, acts) == RunActions(a, k, acts).(nextTimerId := n)
    decreases |acts|
  {
    if acts != [] {
      var a1 := RunAction(a, k, acts[0]);
      SameShapeKeepsWellFormed(a.nodes, a1.nodes);
      assert RunAction(a.(nextTimerId := n), k, acts[0]) == a1.(nextTimerId := n);
      RunActionsIgnoresNextTimerId(a1, k, acts[1..], n);
    }
  }

  /**
   * The loop from position `i` runs the fired actions of the timers from
   * `i` on, in list order, and otherwise only rewrites the owner's list.
   */
  lemma {:induction false} UpdateTimersFromRunsFired(a: Arena, k: NodeId, i: nat, rule: FinishRule)
    requires WellFormed(a.nodes) && k < |a.nodes| && i <= |a.nodes[k].timers|
    ensures var r := UpdateTimersFrom(a, k, i, rule);
            r == SetTimers(RunActions(a, k, FiredActions(a.nodes[k].timers[i..], a.elapsedTime, rule)), k, r.nodes[k].timers)
    decreases |a.nodes[k].timers| - i
  {
    var ts := a.nodes[k].timers;
    var r := UpdateTimersFrom(a, k, i, rule);
    if i == |ts| {
      assert ts[i..] == [];
      assert r == a;
      assert a.nodes[k := a.nodes[k].(timers := ts)] == a.nodes;
    } else if Pruned(ts[i], rule) {
      PrunedStepRunsFired(a, k, i, rule);
    } else {
      UpdatedStepRunsFired(a, k, i, rule);
    }
  }

  /** The removal step of UpdateTimersFromRunsFired. */
  lemma {:induction false} PrunedStepRunsFired(a: Arena, k: NodeId, i: nat, rule: FinishRule)
    requires WellFormed(a.nodes) && k < |a.nodes| && i < |a.nodes[k].timers| && Pruned(a.nodes[k].timers[i], rule)
    ensures var r := UpdateTimersFrom(a, k, i, rule);
            r == SetTimers(RunActions(a, k, FiredActions(a.nodes[k].timers[i..], a.elapsedTime, rule)), k, r.nodes[k].timers)
    decreases |a.nodes[k].timers| - i, 0
  {
    var ts := a.nodes[k].timers;
    var ts1 := ts[..i] + ts[i + 1..];
    var a1 := PruneAt(a, k, i);
    assert a1 == SetTimers(a, k, ts1);
    var r := UpdateTimersFrom(a1, k, i, rule);
    var fs := FiredActions(ts[i + 1..], a.elapsedTime, rule);
    FiredActionsStep(ts, i, a.elapsedTime, rule);
    assert FiredActions(ts[i..], a.elapsedTime, rule) == fs;
    assert a1.nodes[k].timers[i..] == ts[i + 1..];
    UpdateTimersFromRunsFired(a1, k, i, rule);
    assert r == SetTimers(RunActions(a1, k, fs), k, r.nodes[k].timers);
    RunActionsAfterSetTimers(a, k, ts1, fs);
    var x := RunActions(a, k, fs);
    assert RunActions(a1, k, fs) == SetTimers(x, k, ts1);
    SetTimersTwice(x, k, ts1, r.nodes[k].timers);
  }

  /** The update step of UpdateTimersFromRunsFired. */
  lemma {:induction false} UpdatedStepRunsFired(a: Arena, k: NodeId, i: nat, rule: FinishRule)
    requires WellFormed(a.nodes) && k < |a.nodes| && i < |a.nodes[k].timers| && !Pruned(a.nodes[k].timers[i], rule)
    ensures var r := UpdateTimersFrom(a, k, i, rule);
            r == SetTimers(RunActions(a, k, FiredActions(a.nodes[k].timers[i..], a.elapsedTime, rule)), k, r.nodes[k].timers)
    decreases |a.nodes[k].timers| - i, 0
  {
    var ts := a.nodes[k].timers;
    var u := UpdateTimer(ts[i], a.elapsedTime);
    var a1 := if u.fired then RunAction(a, k, ts[i].action) else a;
    SameShapeKeepsWellFormed(a.nodes, a1.nodes);
    var ts2 := ts[i := u.timer];
    var a2 := StepAt(a, k, i);
    assert a2 == SetTimers(a1, k, ts2);
    var r := UpdateTimersFrom(a2, k, i + 1, rule);
    var fs := FiredActions(ts[i + 1..], a.elapsedTime, rule);
    assert a2.nodes[k].timers[i + 1..] == ts[i + 1..];
    UpdateTimersFromRunsFired(a2, k, i + 1, rule);
    assert r == SetTimers(RunActions(a2, k, fs), k, r.nodes[k].timers);
    RunActionsAfterSetTimers(a1, k, ts2, fs);
    var x := RunActions(a1, k, fs);
    assert RunActions(a2, k, fs) == SetTimers(x, k, ts2);
    SetTimersTwice(x, k, ts2, r.nodes[k].timers);
    FiredActionsStep(ts, i, a.elapsedTime, rule);
    FiredFirstRuns(a, k, ts[i].action, fs, u.fired);
  }

  /** Setting a node's timers twice keeps only the second list. */
  lemma SetTimersTwice(a: Arena, k: NodeId, ts: seq<NodeTimer>, ts': seq<NodeTimer>)
    requires k < |a.nodes|
    ensures SetTimers(SetTimers(a, k, ts), k, ts') == SetTimers(a, k, ts')
  {
    assert SetTimers(SetTimers(a, k, ts), k, ts').nodes == SetTimers(a, k, ts').nodes;
  }

  /** Running an action that fired and then the rest is running the list with it in front. */
  lemma FiredFirstRuns(a: Arena, k: NodeId, action: TimerAction, fs: seq<TimerAction>, fired: bool)
    requires WellFormed(a.nodes) && k < |a.nodes|
    ensures var a1 := if fired then RunAction(a, k, action) else a;
            WellFormed(a1.nodes) && RunActions(a, k, (if fired then [action] else []) + fs) == RunActions(a1, k, fs)
  {
    var a1 := if fired then RunAction(a, k, action) else a;
    SameShapeKeepsWellFormed(a.nodes, a1.nodes);
    var all := (if fired then [action] else []) + fs;
    if fired {
      assert all[1..] == fs;
    } else {
      assert all == fs;
    }
  }

  // ---------------------------------------------------------------------
  // IsFinished: as written and as intended
  // ---------------------------------------------------------------------

  /**
   * As written, RunOnNextTick never runs its action: on a node with no
   * other timers, the next UpdateTimers removes the new timer unfired, so
   * the nodes and the log end as they began.
   */
  lemma RunOnNextTickIsDroppedUnfired(a: Arena, k: NodeId, action: TimerAction)
    requires WellFormed(a.nodes) && k < |a.nodes| && a.nodes[k].timers == []
    ensures var b := RunOnNextTick(a, k, action);
            && SameShape(a.nodes, b.nodes) && WellFormed(b.nodes)
            && UpdateTimers(b, k).nodes == a.nodes && UpdateTimers(b, k).log == a.log
  {
    var b := RunOnNextTick(a, k, action);
    assert b.nodes == a.nodes[k := a.nodes[k].(timers := b.nodes[k].timers)];
    assert SameShape(a.nodes, b.nodes);
    SameShapeKeepsWellFormed(a.nodes, b.nodes);
    var t := b.nodes[k].timers[0];
    assert Pruned(t, AsWritten);
    var b1 := PruneAt(b, k, 0);
    assert b.nodes[k].timers[..0] + b.nodes[k].timers[1..] == [];
    assert UpdateTimersFrom(b, k, 0, AsWritten) == UpdateTimersFrom(b1, k, 0, AsWritten) == b1;
    assert b1.nodes == a.nodes;
  }

  /**
   * On a node that is not a root, a timer pass only appends the callbacks
   * of the timers that fire, in list order, and keeps the survivors.
   */
  lemma UpdateTimersOnPlainNode(a: Arena, k: NodeId)
    requires WellFormed(a.nodes) && k < |a.nodes| && !a.nodes[k].kind.Root?
    ensures UpdateTimers(a, k)
            == a.(nodes := a.nodes[k := a.nodes[k].(timers := Survivors(a.nodes[k].timers, a.elapsedTime, AsWritten))],
                  log := a.log + CallbackLog(k, FiredActions(a.nodes[k].timers, a.elapsedTime, AsWritten)))
  {
    RunActionsOnPlainOwner(a, k, FiredActions(a.nodes[k].timers, a.elapsedTime, AsWritten));
  }

  /** Survivors and FiredActions of a list with one more timer at the end. */
  lemma {:induction false} PassOfAppended(ts: seq<NodeTimer>, t: NodeTimer, elapsedTime: real, rule: FinishRule)
    ensures Survivors(ts + [t], elapsedTime, rule) == Survivors(ts, elapsedTime, rule) + Survivors([t], elapsedTime, rule)
    ensures FiredActions(ts + [t], elapsedTime, rule) == FiredActions(ts, elapsedTime, rule) + FiredActions([t], elapsedTime, rule)
    decreases |ts|
  {
    if ts != [] {
      assert (ts + [t])[1..] == ts[1..] + [t];
      PassOfAppended(ts[1..], t, elapsedTime, rule);
    } else {
      assert ts + [t] == [t];
    }
  }

  /**
   * As written, whatever timers the node already has, a RunOnNextTick
   * timer leaves no trace on the next pass: the pass ends exactly as it
   * would have without it, except for the used-up timer id.
   */
  lemma RunOnNextTickIsErasedAsWritten(a: Arena, k: NodeId, action: TimerAction)
    requires WellFormed(a.nodes) && k < |a.nodes|
    ensures var b := RunOnNextTick(a, k, action);
            && WellFormed(b.nodes)
            && UpdateTimers(b, k) == UpdateTimers(a, k).(nextTimerId := a.nextTimerId + 1)
  {
    var ts := a.nodes[k].timers;
    var t := NewTimer(a.nextTimerId, 0.0, 0.0, 0.0, 0, action, true, a.elapsedTime);
    var a' := a.(nextTimerId := a.nextTimerId + 1);
    var b := RunOnNextTick(a, k, action);
    assert b == SetTimers(a', k, ts + [t]);
    RunActionsAfterSetTimers(a', k, ts + [t], []);
    assert Pruned(t, AsWritten);
    PassOfAppended(ts, t, a.elapsedTime, AsWritten);
    var fs := FiredActions(ts, a.elapsedTime, AsWritten);
    assert FiredActions(ts + [t], a.elapsedTime, AsWritten) == fs;
    assert Survivors(ts + [t], a.elapsedTime, AsWritten) == Survivors(ts, a.elapsedTime, AsWritten);
    RunActionsAfterSetTimers(a', k, ts + [t], fs);
    RunActionsIgnoresNextTimerId(a, k, fs, a.nextTimerId + 1);
    var x := RunActions(a, k, fs);
    SetTimersTwice(x.(nextTimerId := a.nextTimerId + 1), k, ts + [t], Survivors(ts, a.elapsedTime, AsWritten));
  }

  /** For every timer the program builds (repeat at least -1) the intended test is "no longer active". */
  lemma IsFinishedIntendedIsInactive(t: NodeTimer)
    requires t.repeat >= -1
    ensures t.IsFinishedIntended() <==> !t.IsActive()
  {
  }

  /**
   * With the intended test, a RunOnNextTick timer on a node with no other
   * timers runs its callback on the next pass and is removed on the pass
   * after, leaving the node's timers empty again.
   */
  lemma {:induction false} RunOnNextTickRunsOnceIntended(a: Arena, k: NodeId, tag: nat)
    requires WellFormed(a.nodes) && k < |a.nodes| && a.nodes[k].timers == []
    ensures var b := RunOnNextTick(a, k, Callback(tag));
            && WellFormed(b.nodes)
            && var c := UpdateTimersFrom(b, k, 0, Intended);
               && c.log == a.log + [TimerCallback(k, tag)]
               && |c.nodes[k].timers| == 1 && !c.nodes[k].timers[0].IsActive()
               && WellFormed(c.nodes)
               && var d := UpdateTimersFrom(c, k, 0, Intended);
                  && d.log == c.log && d.nodes[k].timers == []
  {
    var b := RunOnNextTick(a, k, Callback(tag));
    assert b.nodes == a.nodes[k := a.nodes[k].(timers := b.nodes[k].timers)];
    assert SameShape(a.nodes, b.nodes);
    SameShapeKeepsWellFormed(a.nodes, b.nodes);
    var t := b.nodes[k].timers[0];
    assert !Pruned(t, Intended) && t.TimeElapsed(b.elapsedTime);
    var u := UpdateTimer(t, b.elapsedTime);
    assert u.fired;
    var b1 := RunAction(b, k, t.action);
    assert b1 == Emit(b, TimerCallback(k, tag));
    var b2 := SetTimers(b1, k, [u.timer]);
    SameShapeKeepsWellFormed(b.nodes, b2.nodes);
    assert b.nodes[k].timers[0 := u.timer] == [u.timer];
    assert StepAt(b, k, 0) == b2;
    var c := UpdateTimersFrom(b, k, 0, Intended);
    assert c == UpdateTimersFrom(b2, k, 1, Intended);
    assert c == b2;
    SameShapeKeepsWellFormed(b.nodes, c.nodes);
    assert Pruned(c.nodes[k].timers[0], Intended);
    var c1 := PruneAt(c, k, 0);
    assert c.nodes[k].timers[..0] + c.nodes[k].timers[1..] == [];
    assert UpdateTimersFrom(c, k, 0, Intended) == UpdateTimersFrom(c1, k, 0, Intended) == c1;
  }

  // ---------------------------------------------------------------------
  // The clock
  // ---------------------------------------------------------------------

  /** BehaviourNode.UpdateTime: the static clock advances by `deltaTime`; nothing else changes. */
  function UpdateTime(a: Arena, deltaTime: real): (r: Arena)
    ensures r.elapsedTime == a.elapsedTime + deltaTime
    ensures r.nodes == a.nodes && r.log == a.log && r.nextTimerId == a.nextTimerId
  {
    a.(elapsedTime := a.elapsedTime + deltaTime)
  }

  /** BehaviourNode.OverrideElapsedTime. */
  function OverrideElapsedTime(a: Arena, elapsedTime: real): (r: Arena)
    ensures r.elapsedTime == elapsedTime
    ensures r.nodes == a.nodes && r.log == a.log && r.nextTimerId == a.nextTimerId
  {
    a.(elapsedTime := elapsedTime)
  }
}
