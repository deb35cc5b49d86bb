/**
 * Bot: the attention bookkeeping of a bot (which transforms it has
 * noticed, which transform or position it is focused on) and the choice of
 * its current wander component.
 *
 * A transform's position and the distance checks are the engine's: they
 * are parameters here (`transformPosition`, `within`); the interaction
 * distance check of AttractMyAttention_ToTransform is also modelled, as
 * written and as intended. The coroutine that
 * forgets a transform after `forgetTransformTimeout` seconds is recorded as
 * a pending entry in `pendingForgets`; the BotWander components are known
 * by their identities, and each StopWandering call on one is recorded in
 * `stopWanderingCalls`.
 */
module Bots {
  import opened Optional
  import opened UnityTypes

  datatype BotState = BotState(
    name: string,
    self: Transform,
    noticed: set<Transform>,
    focusedOnTransform: Option<Transform>,
    storedFocusedOnPosition: Option<Vector3>,
    forgetTransformTimeout: real,
    pendingForgets: seq<Transform>,
    wanderComponents: seq<nat>,
    currentWander: Option<nat>,
    stopWanderingCalls: seq<nat>)

  /** A bot as its field initialisers leave it: nothing noticed, no focus, forgetting switched off (-1). */
  function NewBot(name: string, self: Transform, wanderComponents: seq<nat>): (b: BotState)
    ensures b.noticed == {} && b.focusedOnTransform.None? && b.storedFocusedOnPosition.None?
    ensures b.forgetTransformTimeout == -1.0 && b.pendingForgets == [] && b.currentWander.None?
  {
    BotState(name, self, {}, None, None, -1.0, [], wanderComponents, None, [])
  }

  /** NoticeTransform: adds the target, reporting whether it was new. */
  function NoticeTransform(b: BotState, t: Transform): (r: (BotState, bool))
    ensures r.1 <==> t !in b.noticed
    ensures r.0.noticed == b.noticed + {t}
    ensures !r.1 ==> r.0 == b
    ensures r.0 == b.(noticed := r.0.noticed)
  {
    if t !in b.noticed then (b.(noticed := b.noticed + {t}), true) else (b, false)
  }

  /** ForgetTransform: removes the target and nothing else. */
  function ForgetTransform(b: BotState, t: Transform): (b': BotState)
    ensures b'.noticed == b.noticed - {t} && t !in b'.noticed
    ensures forall u :: u != t ==> (u in b'.noticed <==> u in b.noticed)
    ensures b' == b.(noticed := b'.noticed)
  {
    b.(noticed := b.noticed - {t})
  }

  /** Noticing a transform not noticed before and forgetting it again restores the bot. */
  lemma NoticeForgetRoundTrip(b: BotState, t: Transform)
    requires t !in b.noticed
    ensures ForgetTransform(NoticeTransform(b, t).0, t) == b
  {
    assert (b.noticed + {t}) - {t} == b.noticed;
  }

  /** FocusOnTransform: the target is noticed and becomes the focus. */
  function FocusOnTransform(b: BotState, t: Transform): (b': BotState)
    ensures t in b'.noticed && b'.noticed == b.noticed + {t}
    ensures b'.focusedOnTransform == Some(t)
    ensures b' == b.(noticed := b'.noticed, focusedOnTransform := b'.focusedOnTransform)
  {
    NoticeTransform(b, t).0.(focusedOnTransform := Some(t))
  }

  /** StartForgetTransform: with a positive timeout, a delayed forget of the target is scheduled; otherwise nothing happens. */
  function StartForgetTransform(b: BotState, t: Transform): (b': BotState)
    ensures b.forgetTransformTimeout > 0.0 ==> b'.pendingForgets == b.pendingForgets + [t]
    ensures b.forgetTransformTimeout <= 0.0 ==> b' == b
    ensures b' == b.(pendingForgets := b'.pendingForgets)
  {
    if b.forgetTransformTimeout > 0.0 then b.(pendingForgets := b.pendingForgets + [t]) else b
  }

  /**
   * UnFocus: without a focused transform it reports false and changes
   * nothing; otherwise the focused transform is scheduled to be forgotten,
   * the focus is cleared and it reports true. The transform stays noticed.
   */
  function UnFocus(b: BotState): (r: (BotState, bool))
    ensures r.1 <==> b.focusedOnTransform.Some?
    ensures !r.1 ==> r.0 == b
    ensures r.1 ==> && r.0.focusedOnTransform.None? && r.0.noticed == b.noticed
                    && r.0 == StartForgetTransform(b, b.focusedOnTransform.value).(focusedOnTransform := None)
  {
    match b.focusedOnTransform
    case None => (b, false)
    case Some(t) => (StartForgetTransform(b, t).(focusedOnTransform := None), true)
  }

  /** The FocusedOnPosition setter (used by FocusOnPosition): stores the position. */
  function FocusOnPosition(b: BotState, p: Vector3): (b': BotState)
    ensures b'.storedFocusedOnPosition == Some(p)
    ensures b' == b.(storedFocusedOnPosition := b'.storedFocusedOnPosition)
  {
    b.(storedFocusedOnPosition := Some(p))
  }

  /**
   * The FocusedOnPosition getter: with a focused transform, the stored
   * position is cleared and the transform's position (`transformPosition`)
   * is the answer; otherwise the stored position is.
   */
  function FocusedOnPosition(b: BotState, transformPosition: Vector3): (r: (BotState, Option<Vector3>))
    ensures b.focusedOnTransform.Some? ==>
              r.1 == Some(transformPosition) && r.0 == b.(storedFocusedOnPosition := None)
    ensures b.focusedOnTransform.None? ==> r == (b, b.storedFocusedOnPosition)
  {
    if b.focusedOnTransform.Some? then (b.(storedFocusedOnPosition := None), Some(transformPosition))
    else (b, b.storedFocusedOnPosition)
  }

  /** IsFocused: the getter gives a position, that is, a transform or a position is the focus. */
  function IsFocused(b: BotState, transformPosition: Vector3): (r: (BotState, bool))
    ensures r.1 <==> b.focusedOnTransform.Some? || b.storedFocusedOnPosition.Some?
    ensures r.1 <==> FocusedOnPosition(b, transformPosition).1.Some?
    ensures r.0 == FocusedOnPosition(b, transformPosition).0
  {
    var (b', p) := FocusedOnPosition(b, transformPosition);
    (b', p.Some?)
  }

  /** Reading FocusedOnPosition a second time gives the same answer and leaves the bot as the first read did. */
  lemma FocusedOnPositionReadTwice(b: BotState, transformPosition: Vector3)
    ensures var (b1, p1) := FocusedOnPosition(b, transformPosition);
            FocusedOnPosition(b1, transformPosition) == (b1, p1)
  {
  }

  /** While a transform is the focus, a position set with FocusOnPosition is never read back: the next read discards it. */
  lemma FocusOnPositionHiddenByTransform(b: BotState, p: Vector3, transformPosition: Vector3)
    requires b.focusedOnTransform.Some?
    ensures var (b1, q) := FocusedOnPosition(FocusOnPosition(b, p), transformPosition);
            q == Some(transformPosition) && b1.storedFocusedOnPosition.None?
  {
  }

  /**
   * CanInteractWith(target), asked by the bot whose transform is `me`: the
   * target is focused on `me`, or it has no focus and has not noticed `me`.
   */
  predicate CanInteractWith(me: Transform, target: BotState)
    ensures target.focusedOnTransform == Some(me) ==> CanInteractWith(me, target)
    ensures target.focusedOnTransform.Some? && target.focusedOnTransform != Some(me) ==> !CanInteractWith(me, target)
    ensures target.focusedOnTransform.None? ==> (CanInteractWith(me, target) <==> me !in target.noticed)
  {
    target.focusedOnTransform == Some(me) || (target.focusedOnTransform.None? && me !in target.noticed)
  }

  /** A target that focuses on `me` lets `me` interact with it. */
  lemma FocusThenCanInteract(me: Transform, target: BotState)
    ensures CanInteractWith(me, FocusOnTransform(target, me))
  {
  }

  /**
   * A target that focused on `me` and then unfocused still remembers `me`:
   * `me` cannot interact with it until it forgets `me`.
   */
  lemma UnFocusBlocksUntilForgotten(me: Transform, target: BotState)
    ensures var t1 := UnFocus(FocusOnTransform(target, me)).0;
            && !CanInteractWith(me, t1)
            && CanInteractWith(me, ForgetTransform(t1, me))
  {
  }

  /** A target focused on some other transform never lets `me` interact. */
  lemma FocusedElsewhereBlocks(me: Transform, target: BotState)
    requires target.focusedOnTransform.Some? && target.focusedOnTransform.value != me
    ensures !CanInteractWith(me, target)
  {
  }

  /**
   * AttractMyAttention_ToTransform(t): when `t` is within interaction
   * distance (`within`), the bot focuses on it and reports true; otherwise
   * nothing changes and it reports false.
   */
  function AttractMyAttentionToTransform(b: BotState, t: Transform, within: bool): (r: (BotState, bool))
    ensures r.1 == within
    ensures within ==> r.0.focusedOnTransform == Some(t) && t in r.0.noticed
    ensures !within ==> r.0 == b
  {
    if within then (FocusOnTransform(b, t), true) else (b, false)
  }

  /**
   * AttractMyAttention_FromBot(target), asked by the bot whose transform is
   * `me`: a target already focused on `me` reports true and is left as it
   * is; otherwise the target tries to attract its own attention to `me`.
   * Either way, on true the target is focused on `me`, so `me` can interact
   * with it.
   */
  function AttractMyAttentionFromBot(me: Transform, target: BotState, within: bool): (r: (BotState, bool))
    ensures target.focusedOnTransform == Some(me) ==> r == (target, true)
    ensures target.focusedOnTransform != Some(me) ==> r == AttractMyAttentionToTransform(target, me, within)
    ensures r.1 ==> r.0.focusedOnTransform == Some(me) && CanInteractWith(me, r.0)
    ensures !r.1 ==> r.0 == target
  {
    if target.focusedOnTransform != Some(me) then AttractMyAttentionToTransform(target, me, within)
    else (target, true)
  }

  // ---------------------------------------------------------------------
  // The interaction-distance check of AttractMyAttention_ToTransform
  // ---------------------------------------------------------------------

  /** SqrInteractionMagnitude: the interaction magnitude squared. */
  function SqrInteractionMagnitude(interactionMagnitude: real): (s: real)
    ensures s >= 0.0
  {
    Sq(interactionMagnitude)
  }

  /** IsWithinInteractionDistance(Vector3 position), for a bot standing at `selfPosition`. */
  predicate IsWithinInteractionDistance(selfPosition: Vector3, position: Vector3, interactionMagnitude: real)
    ensures selfPosition == position ==> IsWithinInteractionDistance(selfPosition, position, interactionMagnitude)
    ensures IsWithinInteractionDistance(selfPosition, position, interactionMagnitude)
            <==> IsWithinDistance(position, selfPosition, SqrInteractionMagnitude(interactionMagnitude))
  {
    IsWithinDistance(selfPosition, position, SqrInteractionMagnitude(interactionMagnitude))
  }

  /**
   * IsWithinInteractionDistance(Transform target) as written: it measures
   * the bot's own position, not the target's, so it passes for every target.
   */
  function IsWithinInteractionDistanceOfTransformAsWritten(selfPosition: Vector3, targetPosition: Vector3,
                                                           interactionMagnitude: real): (r: bool)
    ensures r
  {
    IsWithinInteractionDistance(selfPosition, selfPosition, interactionMagnitude)
  }

  /** AttractMyAttention_ToTransform(t) as written: the bot focuses on `t` wherever `t` is. */
  function AttractMyAttentionToTransformAsWritten(b: BotState, t: Transform, selfPosition: Vector3,
                                                  targetPosition: Vector3, interactionMagnitude: real): (r: (BotState, bool))
    ensures r == (FocusOnTransform(b, t), true)
  {
    AttractMyAttentionToTransform(b, t, IsWithinInteractionDistanceOfTransformAsWritten(selfPosition, targetPosition, interactionMagnitude))
  }

  /**
   * As written, a target 100 units away from a bot with the default
   * interaction magnitude 1.35 still attracts its attention; measured from
   * the target's position it would not.
   */
  lemma FarTargetAttractsAttentionAsWritten(b: BotState, t: Transform)
    ensures var selfPosition := Vector3(0.0, 0.0, 0.0);
            var targetPosition := Vector3(100.0, 0.0, 0.0);
            && AttractMyAttentionToTransformAsWritten(b, t, selfPosition, targetPosition, 1.35).1
            && !AttractMyAttentionToTransformIntended(b, t, selfPosition, targetPosition, 1.35).1
  {
    var d := SqrDistance(Vector3(100.0, 0.0, 0.0), Vector3(0.0, 0.0, 0.0));
    assert d == 10000.0;
    assert SqrInteractionMagnitude(1.35) == 1.8225;
    assert Sq(1.8225) < 4.0;
  }

  /**
   * As written, AttractMyAttention_FromBot always succeeds: the target
   * always ends focused on `me`, so `me` can always interact with it.
   */
  lemma AttractMyAttentionFromBotAlwaysSucceedsAsWritten(me: Transform, target: BotState, targetPosition: Vector3,
                                                         myPosition: Vector3, interactionMagnitude: real)
    ensures var r := AttractMyAttentionFromBot(me, target,
                       IsWithinInteractionDistanceOfTransformAsWritten(targetPosition, myPosition, interactionMagnitude));
            r.1 && r.0.focusedOnTransform == Some(me) && CanInteractWith(me, r.0)
  {
  }

  /**
   * AttractMyAttention_ToTransform(t) as evidently intended: the bot at
   * `selfPosition` focuses on `t` exactly when `t`'s position is within its
   * interaction distance; otherwise nothing changes.
   */
  function AttractMyAttentionToTransformIntended(b: BotState, t: Transform, selfPosition: Vector3,
                                                 targetPosition: Vector3, interactionMagnitude: real): (r: (BotState, bool))
    ensures r.1 <==> IsWithinInteractionDistance(selfPosition, targetPosition, interactionMagnitude)
    ensures r.1 ==> r.0 == FocusOnTransform(b, t)
    ensures !r.1 ==> r.0 == b
  {
    AttractMyAttentionToTransform(b, t, IsWithinInteractionDistance(selfPosition, targetPosition, interactionMagnitude))
  }

  /**
   * As intended, a target whose squared distance exceeds the squared
   * interaction magnitude squared is refused, and a target at the bot's own
   * position is always accepted.
   */
  lemma AttractMyAttentionIntendedIsDecidedByDistance(b: BotState, t: Transform, selfPosition: Vector3,
                                                      targetPosition: Vector3, interactionMagnitude: real)
    ensures SqrDistance(targetPosition, selfPosition) > Sq(SqrInteractionMagnitude(interactionMagnitude)) ==>
              AttractMyAttentionToTransformIntended(b, t, selfPosition, targetPosition, interactionMagnitude) == (b, false)
    ensures AttractMyAttentionToTransformIntended(b, t, selfPosition, selfPosition, interactionMagnitude)
            == (FocusOnTransform(b, t), true)
  {
  }

  /**
   * The components other than `b`, in order, each as often as it occurs:
   * those SetCurrentBotWander tells to stop wandering.
   */
  function Others(cs: seq<nat>, b: nat): (os: seq<nat>)
    ensures |os| <= |cs|
  {
    if cs == [] then []
    else Others(cs[..|cs| - 1], b) + (if cs[|cs| - 1] != b then [cs[|cs| - 1]] else [])
  }

  /** A component is told to stop exactly when it is held and is not the new current one. */
  lemma {:induction false} OthersAreTheRest(cs: seq<nat>, b: nat)
    ensures forall x :: x in Others(cs, b) <==> x in cs && x != b
    ensures b !in Others(cs, b)
  {
    if cs != [] {
      var init := cs[..|cs| - 1];
      OthersAreTheRest(init, b);
      assert cs == init + [cs[|cs| - 1]];
      forall x
        ensures x in Others(cs, b) <==> x in cs && x != b
      {
        assert x in cs <==> x in init || x == cs[|cs| - 1];
      }
    }
  }

  /**
   * Bot.SetCurrentBotWander: a component the bot does not hold throws;
   * otherwise it becomes the current one and every other component is
   * told to stop wandering.
   */
  function SetCurrentBotWander(b: BotState, w: nat): (r: Result<BotState>)
    ensures r.Thrown? <==> w !in b.wanderComponents
    ensures r.Thrown? ==> r.message == b.name + " does not contain component"
    ensures r.Ok? ==> && r.value.currentWander == Some(w)
                      && r.value.stopWanderingCalls == b.stopWanderingCalls + Others(b.wanderComponents, w)
                      && r.value == b.(currentWander := Some(w), stopWanderingCalls := r.value.stopWanderingCalls)
  {
    if w in b.wanderComponents then
      Ok(b.(currentWander := Some(w), stopWanderingCalls := b.stopWanderingCalls + Others(b.wanderComponents, w)))
    else Thrown(b.name + " does not contain component")
  }

  /** After SetCurrentBotWander, the new current component is never among those told to stop, and every other held one is. */
  lemma SetCurrentBotWanderStopsOthers(b: BotState, w: nat, x: nat)
    requires w in b.wanderComponents
    ensures var r := SetCurrentBotWander(b, w).value;
            var stopped := r.stopWanderingCalls[|b.stopWanderingCalls|..];
            && w !in stopped
            && (x in b.wanderComponents && x != w ==> x in stopped)
  {
    var r := SetCurrentBotWander(b, w).value;
    assert r.stopWanderingCalls[|b.stopWanderingCalls|..] == Others(b.wanderComponents, w);
    OthersAreTheRest(b.wanderComponents, w);
  }
}

/**
 * The Bot object: its fields hold the state above, and each method leaves
 * them as the function of the same name in Bots says.
 */
module BotRuntime {
  import opened Optional
  import opened UnityTypes
  import opened Bots

  class Bot {
    const name: string
    const self: Transform
    var noticed: set<Transform>
    var focusedOnTransform: Option<Transform>
    var storedFocusedOnPosition: Option<Vector3>
    var forgetTransformTimeout: real
    var pendingForgets: seq<Transform>
    var wanderComponents: seq<nat>
    var currentWander: Option<nat>
    var stopWanderingCalls: seq<nat>

    function View(): BotState
      reads this
    {
      BotState(name, self, noticed, focusedOnTransform, storedFocusedOnPosition, forgetTransformTimeout,
               pendingForgets, wanderComponents, currentWander, stopWanderingCalls)
    }

    constructor (name: string, self: Transform, wanderComponents: seq<nat>)
      ensures View() == NewBot(name, self, wanderComponents)
    {
      this.name := name;
      this.self := self;
      this.noticed := {};
      this.focusedOnTransform := None;
      this.storedFocusedOnPosition := None;
      this.forgetTransformTimeout := -1.0;
      this.pendingForgets := [];
      this.wanderComponents := wanderComponents;
      this.currentWander := None;
      this.stopWanderingCalls := [];
    }

    method SetCurrentBotWander(w: nat) returns (thrown: Option<string>)
      modifies this
      ensures var r := Bots.SetCurrentBotWander(old(View()), w);
              && (r.Thrown? ==> thrown == Some(r.message) && View() == old(View()))
              && (r.Ok? ==> thrown.None? && View() == r.value)
    {
      if w !in wanderComponents {
        return Some(name + " does not contain component");
      }
      currentWander := Some(w);
      var i := 0;
      while i < |wanderComponents|
        invariant 0 <= i <= |wanderComponents|
        invariant stopWanderingCalls == old(stopWanderingCalls) + Others(wanderComponents[..i], w)
        invariant View() == old(View()).(currentWander := Some(w), stopWanderingCalls := stopWanderingCalls)
      {
        assert wanderComponents[..i + 1][..i] == wanderComponents[..i];
        if wanderComponents[i] != w {
          stopWanderingCalls := stopWanderingCalls + [wanderComponents[i]];
        }
        i := i + 1;
      }
      assert wanderComponents[..i] == wanderComponents;
      return None;
    }

    method NoticeTransform(t: Transform) returns (added: bool)
      modifies this
      ensures (View(), added) == Bots.NoticeTransform(old(View()), t)
    {
      if t !in noticed {
        noticed := noticed + {t};
        return true;
      }
      return false;
    }

    method ForgetTransform(t: Transform)
      modifies this
      ensures View() == Bots.ForgetTransform(old(View()), t)
    {
      noticed := noticed - {t};
    }

    method FocusOnTransform(t: Transform)
      modifies this
      ensures View() == Bots.FocusOnTransform(old(View()), t)
    {
      var _ := NoticeTransform(t);
      focusedOnTransform := Some(t);
    }

    method StartForgetTransform(t: Transform)
      modifies this
      ensures View() == Bots.StartForgetTransform(old(View()), t)
    {
      if forgetTransformTimeout > 0.0 {
        pendingForgets := pendingForgets + [t];
      }
    }

    method UnFocus() returns (unfocused: bool)
      modifies this
      ensures (View(), unfocused) == Bots.UnFocus(old(View()))
    {
      if focusedOnTransform.None? {
        return false;
      }
      StartForgetTransform(focusedOnTransform.value);
      focusedOnTransform := None;
      return true;
    }

    method FocusOnPosition(p: Vector3)
      modifies this
      ensures View() == Bots.FocusOnPosition(old(View()), p)
    {
      storedFocusedOnPosition := Some(p);
    }

    method FocusedOnPosition(transformPosition: Vector3) returns (p: Option<Vector3>)
      modifies this
      ensures (View(), p) == Bots.FocusedOnPosition(old(View()), transformPosition)
    {
      if focusedOnTransform.Some? {
        storedFocusedOnPosition := None;
        return Some(transformPosition);
      }
      return storedFocusedOnPosition;
    }

    method IsFocused(transformPosition: Vector3) returns (focused: bool)
      modifies this
      ensures (View(), focused) == Bots.IsFocused(old(View()), transformPosition)
    {
      var p := FocusedOnPosition(transformPosition);
      return p.Some?;
    }

    method CanInteractWith(target: Bot) returns (can: bool)
      ensures can <==> Bots.CanInteractWith(self, target.View())
    {
      return target.focusedOnTransform == Some(self)
          || (target.focusedOnTransform.None? && self !in target.noticed);
    }

    method AttractMyAttentionToTransform(t: Transform, within: bool) returns (attracted: bool)
      modifies this
      ensures (View(), attracted) == Bots.AttractMyAttentionToTransform(old(View()), t, within)
    {
      if within {
        FocusOnTransform(t);
        return true;
      }
      return false;
    }

    method AttractMyAttentionFromBot(target: Bot, within: bool) returns (attracted: bool)
      modifies target
      ensures (target.View(), attracted) == Bots.AttractMyAttentionFromBot(self, old(target.View()), within)
    {
      if target.focusedOnTransform != Some(self) {
        attracted := target.AttractMyAttentionToTransform(self, within);
        return;
      }
      return true;
    }
  }
}
