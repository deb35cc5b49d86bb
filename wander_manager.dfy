/**
 * BotPartWanderManager: the four-state wander machine of a bot and the
 * choice of which BotPartWander component drives it.
 *
 * The BTFiniteStateMachine it runs on is not part of this model; of it,
 * only `ChangeState` (current := new, last := old) is used. The handlers
 * that InitStates registers (the `*_Enter` and `*_Update` methods) are
 * separate operations; when the machine invokes them is the machine's
 * business. What the engine, the locomotion component and the wander
 * component answer (CanWander, a new position, whether the bot has
 * stopped moving, whether a move started, the frame time, the random
 * value) are parameters; the calls the manager makes on them are recorded
 * in `calls`.
 */
module WanderManager {
  import opened Optional
  import opened UnityTypes

  datatype FStatesWander = NotWandering | FindNewPosition | MovingToPosition | CannotWander

  /** The CurrentState and LastState of the wander machine. */
  datatype Fsm = Fsm(current: FStatesWander, last: FStatesWander)

  /** BTFiniteStateMachine.ChangeState, as far as this model uses it. */
  function ChangeState(f: Fsm, s: FStatesWander): (g: Fsm)
    ensures g.current == s && g.last == f.current
  {
    Fsm(s, f.current)
  }

  /** The settings of a BotPartWander component the manager reads; `id` is the component's identity. */
  datatype BotPartWander = BotPartWander(
    id: nat,
    waitTime: real,
    randomizeWait: bool,
    autoWander: bool,
    movementTimeout: real)

  /** A call the manager makes on another component. */
  datatype Call =
    | SetWanderRadius(component: nat, radius: real)
    | UnFocus
    | FocusOnPosition(position: Vector3)
    | MoveToPosition
    | StopMoving

  datatype WanderState = WanderState(
    name: string,
    fsm: Fsm,
    components: seq<BotPartWander>,
    current: Option<BotPartWander>,
    findPositionTimeout: real,
    newWanderPosition: Option<Vector3>,
    calls: seq<Call>)

  /** The manager as its field initialisers leave it: not wandering, no current component. */
  function NewManager(name: string, components: seq<BotPartWander>): (m: WanderState)
    ensures m.fsm.current == NotWandering && m.current.None? && m.calls == [] && m.components == components
  {
    WanderState(name, Fsm(NotWandering, NotWandering), components, None, 0.0, None, [])
  }

  function Change(m: WanderState, s: FStatesWander): (m': WanderState)
    ensures m'.fsm == ChangeState(m.fsm, s) && m' == m.(fsm := m'.fsm)
  {
    m.(fsm := ChangeState(m.fsm, s))
  }

  /** IsWandering: looking for a position or moving to one, exactly two of the four states. */
  predicate IsWandering(m: WanderState)
    ensures IsWandering(m) <==> m.fsm.current in {FindNewPosition, MovingToPosition}
  {
    m.fsm.current != NotWandering && m.fsm.current != CannotWander
  }

  /**
   * GetWaitTime: 0.1 right after not wandering or being unable to; else the
   * component's WaitTime, or a random time between three quarters of it
   * and all of it when the wait is randomised.
   */
  function GetWaitTime(m: WanderState, roll: real): (t: real)
    requires 0.0 <= roll <= 1.0
    requires m.fsm.last == NotWandering || m.fsm.last == CannotWander || m.current.Some?
    ensures m.fsm.last in {NotWandering, CannotWander} ==> t == 0.1
    ensures m.fsm.last !in {NotWandering, CannotWander} && !m.current.value.randomizeWait ==> t == m.current.value.waitTime
    ensures m.fsm.last !in {NotWandering, CannotWander} && m.current.value.randomizeWait && m.current.value.waitTime >= 0.0 ==>
              m.current.value.waitTime * 0.75 <= t <= m.current.value.waitTime
  {
    if m.fsm.last == NotWandering || m.fsm.last == CannotWander then 0.1
    else
      var w := m.current.value.waitTime;
      if m.current.value.randomizeWait then RandomFloatWithinRange(w * 0.75, w, roll) else w
  }

  /**
   * Wander(radius): hands the radius to the current component; a bot that
   * cannot wander goes to CannotWander and reports false; a bot that is not
   * wandering starts looking for a position and reports true; otherwise
   * nothing but the radius changes and it reports false.
   */
  function Wander(m: WanderState, radius: real, canWander: bool): (r: (WanderState, bool))
    requires m.current.Some?
    ensures r.0.calls == m.calls + [SetWanderRadius(m.current.value.id, radius)]
    ensures r.1 <==> canWander && m.fsm.current == NotWandering
    ensures !canWander ==> r.0.fsm == ChangeState(m.fsm, CannotWander)
    ensures r.1 ==> r.0.fsm == ChangeState(m.fsm, FindNewPosition) && IsWandering(r.0)
    ensures canWander && !r.1 ==> r.0.fsm == m.fsm
    ensures r.0.(fsm := m.fsm, calls := m.calls) == m
  {
    var m1 := m.(calls := m.calls + [SetWanderRadius(m.current.value.id, radius)]);
    if !canWander then (Change(m1, CannotWander), false)
    else if m1.fsm.current == NotWandering then (Change(m1, FindNewPosition), true)
    else (m1, false)
  }

  /**
   * StopWandering(stopMoving): from any state but NotWandering the machine
   * goes to NotWandering (the bot is told to stop moving first when asked)
   * and it reports true; from NotWandering it reports false and changes
   * nothing.
   */
  function StopWandering(m: WanderState, stopMoving: bool): (r: (WanderState, bool))
    ensures r.1 <==> m.fsm.current != NotWandering
    ensures r.1 ==> && r.0.fsm == ChangeState(m.fsm, NotWandering)
                    && r.0.calls == m.calls + (if stopMoving then [StopMoving] else [])
    ensures !r.1 ==> r.0 == m
    ensures r.0.fsm.current == NotWandering && !IsWandering(r.0)
    ensures r.0.(fsm := m.fsm, calls := m.calls) == m
  {
    if m.fsm.current != NotWandering then
      var m1 := if stopMoving then m.(calls := m.calls + [StopMoving]) else m;
      (Change(m1, NotWandering), true)
    else (m, false)
  }

  /** Stopping twice is the same as stopping once; the second call reports false. */
  lemma StopWanderingIdempotent(m: WanderState, stopMoving: bool, stopMoving': bool)
    ensures var once := StopWandering(m, stopMoving).0;
            StopWandering(once, stopMoving') == (once, false)
  {
  }

  /**
   * SetCurrentBotWander: a component the manager does not hold throws;
   * otherwise wandering is stopped (and the bot told to stop moving) and
   * the component becomes the current one.
   */
  function SetCurrentBotWander(m: WanderState, b: BotPartWander): (r: Result<WanderState>)
    ensures r.Thrown? <==> b !in m.components
    ensures r.Thrown? ==> r.message == m.name + " does not contain component"
    ensures r.Ok? ==> && r.value.current == Some(b) && r.value.fsm.current == NotWandering
                      && r.value.components == m.components
                      && r.value.(current := m.current) == StopWandering(m, true).0
  {
    if b in m.components then Ok(StopWandering(m, true).0.(current := Some(b)))
    else Thrown(m.name + " does not contain component")
  }

  /** Initialize(initialBotWander): a new manager takes its first component. */
  function Initialize(name: string, components: seq<BotPartWander>, initial: BotPartWander): (r: Result<WanderState>)
    ensures r.Thrown? <==> initial !in components
    ensures r.Ok? ==> r.value.current == Some(initial) && r.value.fsm.current == NotWandering && r.value.calls == []
  {
    SetCurrentBotWander(NewManager(name, components), initial)
  }

  /** FindNewPosition_Enter: the bot's locomotion unfocuses and the countdown is set to the wait time. */
  function FindNewPositionEnter(m: WanderState, roll: real): (m': WanderState)
    requires 0.0 <= roll <= 1.0
    requires m.fsm.last == NotWandering || m.fsm.last == CannotWander || m.current.Some?
    ensures m'.calls == m.calls + [UnFocus] && m'.findPositionTimeout == GetWaitTime(m, roll)
    ensures m'.fsm == m.fsm && m'.current == m.current
  {
    m.(calls := m.calls + [UnFocus], findPositionTimeout := GetWaitTime(m, roll))
  }

  /**
   * FindNewPosition_Update: the countdown goes down by the frame time; while
   * it is still positive nothing else happens. Once it has run out, the
   * current component is asked for a position (`newPosition`): with one the
   * bot focuses on it and starts moving there, without one it cannot
   * wander.
   */
  function FindNewPositionUpdate(m: WanderState, deltaTime: real, newPosition: Option<Vector3>): (m': WanderState)
    requires m.findPositionTimeout - deltaTime > 0.0 || m.current.Some?
    ensures m'.findPositionTimeout == m.findPositionTimeout - deltaTime
    ensures m'.findPositionTimeout > 0.0 ==> m' == m.(findPositionTimeout := m'.findPositionTimeout)
    ensures m'.findPositionTimeout <= 0.0 ==>
              && m'.newWanderPosition == newPosition
              && m'.fsm == ChangeState(m.fsm, if newPosition.Some? then MovingToPosition else CannotWander)
              && m'.calls == m.calls + (if newPosition.Some? then [FocusOnPosition(newPosition.value)] else [])
    ensures m'.current == m.current && m'.components == m.components
  {
    var m1 := m.(findPositionTimeout := m.findPositionTimeout - deltaTime);
    if m1.findPositionTimeout > 0.0 then m1
    else
      var m2 := m1.(newWanderPosition := newPosition);
      match newPosition
      case Some(p) => Change(m2.(calls := m2.calls + [FocusOnPosition(p)]), MovingToPosition)
      case None => Change(m2, CannotWander)
  }

  /**
   * MovingToPosition_Update: a bot that can no longer wander goes to
   * CannotWander; one that has stopped moving looks for the next position
   * when it wanders automatically and stops wandering otherwise; a bot
   * still on its way stays.
   */
  function MovingToPositionUpdate(m: WanderState, canWander: bool, notMoving: bool): (m': WanderState)
    requires m.current.Some?
    ensures !canWander ==> m'.fsm == ChangeState(m.fsm, CannotWander)
    ensures canWander && notMoving ==>
              m'.fsm == ChangeState(m.fsm, if m.current.value.autoWander then FindNewPosition else NotWandering)
    ensures canWander && !notMoving ==> m'.fsm == m.fsm
    ensures m' == m.(fsm := m'.fsm)
  {
    if !canWander then Change(m, CannotWander)
    else if notMoving then Change(m, if m.current.value.autoWander then FindNewPosition else NotWandering)
    else m
  }

  /**
   * MovingToPosition_Enter: with a movement timeout the bot is told to move
   * to its position; if that move does not start (`moveStarted` false) the
   * bot cannot wander. Without a timeout nothing happens.
   */
  function MovingToPositionEnter(m: WanderState, moveStarted: bool): (m': WanderState)
    requires m.current.Some?
    ensures m.current.value.movementTimeout > 0.0 ==> m'.calls == m.calls + [MoveToPosition]
    ensures m.current.value.movementTimeout > 0.0 && !moveStarted ==> m'.fsm == ChangeState(m.fsm, CannotWander)
    ensures m.current.value.movementTimeout > 0.0 && moveStarted ==> m'.fsm == m.fsm
    ensures m.current.value.movementTimeout <= 0.0 ==> m' == m
    ensures m' == m.(fsm := m'.fsm, calls := m'.calls)
  {
    if m.current.value.movementTimeout > 0.0 then
      var m1 := m.(calls := m.calls + [MoveToPosition]);
      if !moveStarted then Change(m1, CannotWander) else m1
    else m
  }

  /** CannotWander_Update: the bot looks for a position exactly when it can wander again. */
  function CannotWanderUpdate(m: WanderState, canWander: bool): (m': WanderState)
    requires m.current.Some?
    ensures canWander ==> m'.fsm == ChangeState(m.fsm, FindNewPosition)
    ensures !canWander ==> m' == m
    ensures m' == m.(fsm := m'.fsm)
  {
    if canWander then Change(m, FindNewPosition) else m
  }

  // ---------------------------------------------------------------------
  // The countdown of FindNewPosition
  // ---------------------------------------------------------------------

  function Sum(ds: seq<real>): real {
    if ds == [] then 0.0 else ds[0] + Sum(ds[1..])
  }

  /**
   * FindNewPosition_Update once per frame (frame times `deltas`), for as
   * long as the machine is in FindNewPosition.
   */
  function FindNewPositionFrames(m: WanderState, deltas: seq<real>, newPosition: Option<Vector3>): (m': WanderState)
    requires m.current.Some?
    ensures m'.current == m.current
    decreases |deltas|
  {
    if deltas == [] || m.fsm.current != FindNewPosition then m
    else FindNewPositionFrames(FindNewPositionUpdate(m, deltas[0], newPosition), deltas[1..], newPosition)
  }

  /**
   * From a positive wait, the countdown keeps the machine in FindNewPosition while the frame
   * times add up to less than the wait, and it has left FindNewPosition
   * (for MovingToPosition or CannotWander, as a position is found or not)
   * once they add up to the wait or more.
   */
  lemma {:induction false} CountdownLeavesOnTime(m: WanderState, deltas: seq<real>, newPosition: Option<Vector3>)
    requires m.current.Some? && m.fsm.current == FindNewPosition && m.findPositionTimeout > 0.0
    requires forall i :: 0 <= i < |deltas| ==> deltas[i] >= 0.0
    ensures var m' := FindNewPositionFrames(m, deltas, newPosition);
            && (Sum(deltas) < m.findPositionTimeout ==>
                  m'.fsm == m.fsm && m'.findPositionTimeout == m.findPositionTimeout - Sum(deltas))
            && (Sum(deltas) >= m.findPositionTimeout ==>
                  m'.fsm.current == (if newPosition.Some? then MovingToPosition else CannotWander))
    decreases |deltas|
  {
    if deltas != [] {
      var m1 := FindNewPositionUpdate(m, deltas[0], newPosition);
      SumNonNegative(deltas[1..]);
      assert Sum(deltas) == deltas[0] + Sum(deltas[1..]);
      if m1.findPositionTimeout > 0.0 {
        CountdownLeavesOnTime(m1, deltas[1..], newPosition);
      } else {
        assert FindNewPositionFrames(m, deltas, newPosition) == FindNewPositionFrames(m1, deltas[1..], newPosition) == m1;
      }
    }
  }

  lemma {:induction false} SumNonNegative(ds: seq<real>)
    requires forall i :: 0 <= i < |ds| ==> ds[i] >= 0.0
    ensures Sum(ds) >= 0.0
    decreases |ds|
  {
    if ds != [] {
      SumNonNegative(ds[1..]);
    }
  }
}

/**
 * The BotPartWanderManager object: its fields hold the state above, and
 * each method leaves them as the function of the same name in
 * WanderManager says.
 */
module WanderRuntime {
  import opened Optional
  import opened UnityTypes
  import opened WanderManager

  class BotPartWanderManager {
    const name: string
    var fsm: Fsm
    var components: seq<BotPartWander>
    var current: Option<BotPartWander>
    var findPositionTimeout: real
    var newWanderPosition: Option<Vector3>
    var calls: seq<Call>

    function View(): WanderState
      reads this
    {
      WanderState(name, fsm, components, current, findPositionTimeout, newWanderPosition, calls)
    }

    /** Initialize(initialBotWander) on a new manager holding `components`; throws for a component it does not hold. */
    constructor (name: string, components: seq<BotPartWander>, initial: BotPartWander)
      requires initial in components
      ensures Initialize(name, components, initial) == Ok(View())
    {
      this.name := name;
      this.fsm := Fsm(NotWandering, NotWandering);
      this.components := components;
      this.current := None;
      this.findPositionTimeout := 0.0;
      this.newWanderPosition := None;
      this.calls := [];
      new;
      var _ := SetCurrentBotWander(initial);
    }

    method ChangeState(s: FStatesWander)
      modifies this
      ensures View() == Change(old(View()), s)
    {
      fsm := Fsm(s, fsm.current);
    }

    method SetCurrentBotWander(b: BotPartWander) returns (thrown: Option<string>)
      modifies this
      ensures var r := WanderManager.SetCurrentBotWander(old(View()), b);
              && (r.Thrown? ==> thrown == Some(r.message) && View() == old(View()))
              && (r.Ok? ==> thrown.None? && View() == r.value)
    {
      if b in components {
        var _ := StopWandering(true);
        current := Some(b);
        return None;
      }
      return Some(name + " does not contain component");
    }

    method Wander(radius: real, canWander: bool) returns (started: bool)
      requires current.Some?
      modifies this
      ensures (View(), started) == WanderManager.Wander(old(View()), radius, canWander)
    {
      calls := calls + [SetWanderRadius(current.value.id, radius)];
      if !canWander {
        ChangeState(CannotWander);
      } else if fsm.current == NotWandering {
        ChangeState(FindNewPosition);
        return true;
      }
      return false;
    }

    method StopWandering(stopMoving: bool) returns (stopped: bool)
      modifies this
      ensures (View(), stopped) == WanderManager.StopWandering(old(View()), stopMoving)
    {
      if fsm.current != NotWandering {
        if stopMoving {
          calls := calls + [StopMoving];
        }
        ChangeState(NotWandering);
        return true;
      }
      return false;
    }

    method GetWaitTime(roll: real) returns (t: real)
      requires 0.0 <= roll <= 1.0
      requires fsm.last == NotWandering || fsm.last == CannotWander || current.Some?
      ensures t == WanderManager.GetWaitTime(View(), roll)
    {
      if fsm.last == NotWandering || fsm.last == CannotWander {
        return 0.1;
      }
      if current.value.randomizeWait {
        return RandomFloatWithinRange(current.value.waitTime * 0.75, current.value.waitTime, roll);
      }
      return current.value.waitTime;
    }

    method FindNewPositionEnter(roll: real)
      requires 0.0 <= roll <= 1.0
      requires fsm.last == NotWandering || fsm.last == CannotWander || current.Some?
      modifies this
      ensures View() == WanderManager.FindNewPositionEnter(old(View()), roll)
    {
      calls := calls + [UnFocus];
      findPositionTimeout := GetWaitTime(roll);
    }

    method FindNewPositionUpdate(deltaTime: real, newPosition: Option<Vector3>)
      requires findPositionTimeout - deltaTime > 0.0 || current.Some?
      modifies this
      ensures View() == WanderManager.FindNewPositionUpdate(old(View()), deltaTime, newPosition)
    {
      findPositionTimeout := findPositionTimeout - deltaTime;
      if findPositionTimeout > 0.0 {
        return;
      }
      newWanderPosition := newPosition;
      if newWanderPosition.Some? {
        calls := calls + [FocusOnPosition(newWanderPosition.value)];
        ChangeState(MovingToPosition);
      } else {
        ChangeState(CannotWander);
      }
    }

    method MovingToPositionUpdate(canWander: bool, notMoving: bool)
      requires current.Some?
      modifies this
      ensures View() == WanderManager.MovingToPositionUpdate(old(View()), canWander, notMoving)
    {
      if !canWander {
        ChangeState(CannotWander);
      } else if notMoving {
        ChangeState(if current.value.autoWander then FindNewPosition else NotWandering);
      }
    }

    method MovingToPositionEnter(moveStarted: bool)
      requires current.Some?
      modifies this
      ensures View() == WanderManager.MovingToPositionEnter(old(View()), moveStarted)
    {
      if current.value.movementTimeout > 0.0 {
        calls := calls + [MoveToPosition];
        if !moveStarted {
          ChangeState(CannotWander);
          return;
        }
      }
    }

    method CannotWanderUpdate(canWander: bool)
      requires current.Some?
      modifies this
      ensures View() == WanderManager.CannotWanderUpdate(old(View()), canWander)
    {
      if canWander {
        ChangeState(FindNewPosition);
      }
    }
  }
}
