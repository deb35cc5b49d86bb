# RSToolkit behaviour runtime, wander manager and bot attention in Dafny

This project models three parts of the UnityRSToolkit AI layer and proves what they promise.

- **The behaviour-tree runtime.** This covers `BehaviourNode`, `BehaviourRootNode` and `BehaviourSelector`.
  - A node moves through INACTIVE, ACTIVE and STOPPING under `StartNode`, `RequestStopNode` and `StopNode`.
  - A node raises its events on silent and non-silent channels.
  - A node keeps a list of countdown timers. A static elapsed-time clock drives them, and `UpdateTimers` prunes them in place.
  - The root gates updating with its sleep flag.
  - The root restarts its child one tick late, through a zero-delay timer.
  - The selector reacts to a child that stops.
- **The wander manager** (`BotPartWanderManager`). This is the four-state machine NotWandering / FindNewPosition / MovingToPosition / CannotWander. It includes the countdown used while looking for a position, and the choice of the current wander component.
- **A bot's attention** (`Bot`). This covers the set of noticed transforms, the focused transform or position, `CanInteractWith`, and the choice of the current wander component.

Each part has two layers:

- **A pure layer.** Datatypes and functions state each operation. Lemmas relate the operations to one another. These are the modules `Nodes`, `RootNode`, `SelectorNode`, `BehaviourTree`, `WanderManager` and `Bots`.
- **An imperative layer.** Classes have the source's fields, and their methods update those fields step by step. These are `Runtime.Behaviours`, `WanderRuntime.BotPartWanderManager` and `BotRuntime.Bot`. Each method is proved to end in the state the pure function computes from the state it started in, so every lemma about the function holds of the running object.

Every node object lives in one arena (`Nodes.Arena`):

- A node reference is an index into the arena.
- A timer carries an id, which stands for its object identity.
- The UnityEvents the nodes raise are appended to an event log in the order in which they are invoked.

Listeners are modelled only where the core registers them: the root's own listeners and the child-stopped listeners of the root and the selector. A listener runs when its event is raised.

In two places the code does not do what the class names suggest; the model follows the code:

- **The selector.** A conventional selector stops on a child's success and moves on after a failure; `BehaviourSelector.OnChildNodeStopped_Listener` does the opposite. A successful child makes it advance. A failed child only makes it raise `OnStopped(false)`: the selector's own state stays as it was, and its parent is not notified. `SelectorNode.OnChildNodeStoppedListener`, `BehaviourTree.SelectorFailureOnlyRaisesEvent` and `BehaviourTree.SelectorSuccessAdvances` state the code's behaviour.
- **The root.** A root asked to stop stays STOPPING. Its listeners only raise `OnStopped`; they never call `StopNode` on the root (`BehaviourTree.RootStoppingIsSticky`).

## Model

`Runtime.Behaviours.AddNode` has no counterpart in the source: it stands in for constructing a node object and making it reachable, which C# does by allocation, so it has no row.

| member | source | states |
|---|---|---|
| Nodes.ToSymbolString | UnityRSToolkit/Assets/RSToolKit/Scripts/AI/Behaviour/BehaviourNode.cs:45-68 | each comparison operator prints as a symbol of one to three characters from `?!=<>`; ALWAYS_TRUE, the default branch, prints as its enum name |
| Nodes.ToSymbolStringInjective | UnityRSToolkit/Assets/RSToolKit/Scripts/AI/Behaviour/BehaviourNode.cs:45-68 | no two operators print alike |
| Nodes.TimeoutIn | UnityRSToolkit/Assets/RSToolKit/Scripts/AI/Behaviour/BehaviourNode.cs:102-105 | the timeout lies within half the variance of the requested time, and equals it when the variance is zero |
| Nodes.NodeTimer.IsActive | UnityRSToolkit/Assets/RSToolKit/Scripts/AI/Behaviour/BehaviourNode.cs:111-117 | an endless timer (repeat -1) is always active; any other timer is inactive exactly when it has used up its repeats |
| Nodes.NodeTimer.IsFinished | UnityRSToolkit/Assets/RSToolKit/Scripts/AI/Behaviour/BehaviourNode.cs:119-123 | as written, true for every timer that has used up its repeats and, since the count is never negative, for every timer at all |
| Nodes.NodeTimer.TimeElapsed | UnityRSToolkit/Assets/RSToolKit/Scripts/AI/Behaviour/BehaviourNode.cs:125-128 | a timer is due exactly when the clock has reached its TimeOutAt |
| Nodes.NewTimer | UnityRSToolkit/Assets/RSToolKit/Scripts/AI/Behaviour/BehaviourNode.cs:94-109 | a new timer has count zero, the given repeat, action and auto-remove flag, and is active iff repeat >= -1; TimeOutIn is SetTimeoutIn of the time, variance and roll, and TimeOutAt is the current clock plus TimeOutIn; with no variance it falls due `time` after the current clock |
| Nodes.UpdateTimer | UnityRSToolkit/Assets/RSToolKit/Scripts/AI/Behaviour/BehaviourNode.cs:111-145 | an inactive timer reports false and is unchanged; an active one reports true and fires iff the clock has reached TimeOutAt; a fire adds one to the count and sets TimeOutAt to clock + TimeOutIn |
| Nodes.RunTimer | UnityRSToolkit/Assets/RSToolKit/Scripts/AI/Behaviour/BehaviourNode.cs:130-145 | repeated updates change only the count and the due time (identity, TimeOutIn, repeat, action and auto-remove are kept), the count grows by exactly the number of fires, and a repeat -1 timer stays active whatever the readings |
| Nodes.FiniteTimerFiresAtMostRepeatPlusOne | UnityRSToolkit/Assets/RSToolKit/Scripts/AI/Behaviour/BehaviourNode.cs:111-145 | a timer with repeat r >= 0 fires at most r + 1 times over any run of updates |
| Nodes.EndlessTimerFiresWheneverDue | UnityRSToolkit/Assets/RSToolKit/Scripts/AI/Behaviour/BehaviourNode.cs:111-145 | a timer with repeat -1 never deactivates and fires at every reading that is due |
| Nodes.OneShotFiresOnceWhenDue | UnityRSToolkit/Assets/RSToolKit/Scripts/AI/Behaviour/BehaviourNode.cs:111-145 | a fresh repeat-0 timer fires exactly once if some reading reaches its due time, and never otherwise |
| Nodes.NewNode | UnityRSToolkit/Assets/RSToolKit/Scripts/AI/Behaviour/BehaviourNode.cs:336-347 | a new node is INACTIVE, with no result, no parent and no timers, and keeps its name and type |
| Nodes.CanStart | UnityRSToolkit/Assets/RSToolKit/Scripts/AI/Behaviour/BehaviourNode.cs:271-271 | a node can start only when INACTIVE; a parentless node can start exactly when INACTIVE; a node whose parent is not ACTIVE cannot start |
| Nodes.BaseStart | UnityRSToolkit/Assets/RSToolKit/Scripts/AI/Behaviour/BehaviourNode.cs:269-286 | a start succeeds iff the node is INACTIVE and its parent is absent or ACTIVE; on success the node is ACTIVE with a null result and exactly one of OnStarted / OnStartedSilent is raised, chosen by `silent`; on failure nothing changes |
| Nodes.BaseRequestStop | UnityRSToolkit/Assets/RSToolKit/Scripts/AI/Behaviour/BehaviourNode.cs:292-305 | ACTIVE becomes STOPPING with exactly one of OnStopping / OnStoppingSilent; from any other state it returns false, with no change and no event |
| Nodes.BaseStop | UnityRSToolkit/Assets/RSToolKit/Scripts/AI/Behaviour/BehaviourNode.cs:314-334 | from a state other than INACTIVE the node becomes INACTIVE with Result = success, raises its own stopped event and then the parent's matching child-stopped channel; from INACTIVE it returns false and raises nothing |
| Nodes.ParentNotice | UnityRSToolkit/Assets/RSToolKit/Scripts/AI/Behaviour/BehaviourNode.cs:321-330 | the parent is notified iff there is one |
| Nodes.BaseSetParent | UnityRSToolkit/Assets/RSToolKit/Scripts/AI/Behaviour/BehaviourNode.cs:210-221 | it throws iff the new parent is a TASK; otherwise exactly Parent changes (null is allowed) and the arena keeps its tree shape |
| Nodes.GetRoot | UnityRSToolkit/Assets/RSToolKit/Scripts/AI/Behaviour/BehaviourNode.cs:190-208 | the result is the nearest root on the parent chain, the node itself included; null means no node on the chain is a root |
| Nodes.SelfParentNeverEnds | UnityRSToolkit/Assets/RSToolKit/Scripts/AI/Behaviour/BehaviourNode.cs:190-208 | a node that is not a root and is its own parent sends GetRoot round forever |
| Nodes.ChainEndsWhenAncestorsRunOut | UnityRSToolkit/Assets/RSToolKit/Scripts/AI/Behaviour/BehaviourNode.cs:190-208 | GetRoot terminates on every acyclic parent chain |
| Nodes.AddTimer | UnityRSToolkit/Assets/RSToolKit/Scripts/AI/Behaviour/BehaviourNode.cs:223-233 | exactly one new timer, with a fresh identity, is appended to the node's list; nothing else changes |
| Nodes.RunOnNextTick | UnityRSToolkit/Assets/RSToolKit/Scripts/AI/Behaviour/BehaviourNode.cs:235-238 | exactly one timer is appended to the node: delay 0, no variance, repeat 0, the given action, auto-removed, due now, with the next fresh id; no other node, no event and no clock changes, and the id counter goes up by one |
| Nodes.IndexOfTimer | UnityRSToolkit/Assets/RSToolKit/Scripts/AI/Behaviour/BehaviourNode.cs:245-248 | the position of the first timer with the given identity, or the list length when there is none |
| Nodes.RemoveTimerFrom | UnityRSToolkit/Assets/RSToolKit/Scripts/AI/Behaviour/BehaviourNode.cs:245-248 | `List.Remove` drops the first occurrence of the timer and keeps the rest in order; a null or absent timer changes nothing |
| Nodes.RemoveTimer | UnityRSToolkit/Assets/RSToolKit/Scripts/AI/Behaviour/BehaviourNode.cs:245-248 | the owner's list becomes the `List.Remove` result (first occurrence gone, order kept, a null or absent timer changes nothing); no other node, no event and no clock changes |
| Nodes.RunAction | UnityRSToolkit/Assets/RSToolKit/Scripts/AI/Behaviour/Decorator/BehaviourRootNode.cs:90-93 | a root's StartChildNode is a non-silent start of its first child; StartChildNode on any other node does nothing; a callback only appends its TimerCallback entry; no node but the root's first child changes, and never the owner |
| Nodes.UpdateTimersFrom | UnityRSToolkit/Assets/RSToolKit/Scripts/AI/Behaviour/BehaviourNode.cs:363-379 | the removal loop from position i keeps the timers before i and every link |
| Nodes.UpdateTimers | UnityRSToolkit/Assets/RSToolKit/Scripts/AI/Behaviour/BehaviourNode.cs:363-379 | the pass equals running the actions of the firing timers (`FiredActions`) in list order and then setting the node's list to exactly the survivors (not IsFinished-and-AutoRemove), in their order, each updated once; no node but the owner and a root's first child changes |
| Nodes.UpdateTimersFromKeepsSurvivors | UnityRSToolkit/Assets/RSToolKit/Scripts/AI/Behaviour/BehaviourNode.cs:363-379 | the index-adjusting loop agrees with the reference definition `Survivors` |
| Nodes.UpdateTimersFromFrame | UnityRSToolkit/Assets/RSToolKit/Scripts/AI/Behaviour/BehaviourNode.cs:363-379 | the loop leaves every node other than the owner and a root's first child as it was |
| Nodes.UpdateTimersFromRunsFired | UnityRSToolkit/Assets/RSToolKit/Scripts/AI/Behaviour/BehaviourNode.cs:363-379 | the index-adjusting loop runs exactly the actions of the timers that fire, in list order, and otherwise only rewrites the owner's list |
| Nodes.UpdateTimersOnPlainNode | UnityRSToolkit/Assets/RSToolKit/Scripts/AI/Behaviour/BehaviourNode.cs:363-379 | on a node that is not a root, a pass only appends the TimerCallback entries of the callbacks that fire, in list order, and keeps the survivors |
| Nodes.RunActionsOnPlainOwner | UnityRSToolkit/Assets/RSToolKit/Scripts/AI/Behaviour/BehaviourNode.cs:373-375 | for an owner that is not a root, running fired actions only appends their callbacks to the log |
| Nodes.RunOnNextTickIsDroppedUnfired | UnityRSToolkit/Assets/RSToolKit/Scripts/AI/Behaviour/BehaviourNode.cs:119-123 | as written, a RunOnNextTick timer is removed by the next UpdateTimers without running: the nodes and the log end as they began |
| Nodes.RunOnNextTickIsErasedAsWritten | UnityRSToolkit/Assets/RSToolKit/Scripts/AI/Behaviour/BehaviourNode.cs:119-123 | as written, whatever timers the node already has, the next UpdateTimers after RunOnNextTick ends exactly as it would have without it, except for the used-up timer id: the action never runs |
| Nodes.IsFinishedIntendedIsInactive | UnityRSToolkit/Assets/RSToolKit/Scripts/AI/Behaviour/BehaviourNode.cs:111-123 | the intended finished-test is exactly "not active" for every timer the program builds |
| Nodes.RunOnNextTickRunsOnceIntended | UnityRSToolkit/Assets/RSToolKit/Scripts/AI/Behaviour/BehaviourNode.cs:235-238 | with the intended test, the callback runs once on the next pass and the timer is gone after the pass that follows |
| Nodes.UpdateTime | UnityRSToolkit/Assets/RSToolKit/Scripts/AI/Behaviour/BehaviourNode.cs:78-81 | the clock advances by deltaTime and nothing else changes |
| Nodes.OverrideElapsedTime | UnityRSToolkit/Assets/RSToolKit/Scripts/AI/Behaviour/BehaviourNode.cs:73-76 | the clock is set and nothing else changes |
| RootNode.NewRoot | UnityRSToolkit/Assets/RSToolKit/Scripts/AI/Behaviour/Decorator/BehaviourRootNode.cs:20-28 | a root is built as an INACTIVE DECORATOR, awake, with no restart timer |
| RootNode.OnStartedListener | UnityRSToolkit/Assets/RSToolKit/Scripts/AI/Behaviour/Decorator/BehaviourRootNode.cs:32-36 | the root wakes and its child starts iff it can, raising OnStarted; no other node changes |
| RootNode.OnStartedSilentListener | UnityRSToolkit/Assets/RSToolKit/Scripts/AI/Behaviour/Decorator/BehaviourRootNode.cs:38-41 | the root's sleep flag is set and nothing else changes: no other node, no field of the root, no event, no clock |
| RootNode.OnChildNodeStoppedListener | UnityRSToolkit/Assets/RSToolKit/Scripts/AI/Behaviour/Decorator/BehaviourRootNode.cs:43-56 | when not STOPPING, exactly one timer (delay 0, repeat 0, action StartChildNode) is added and becomes m_rootTimer, and nothing starts now; when STOPPING, the root only raises OnStopped(success) and its state is unchanged |
| RootNode.OnStoppingListener | UnityRSToolkit/Assets/RSToolKit/Scripts/AI/Behaviour/Decorator/BehaviourRootNode.cs:59-70 | an ACTIVE child is asked to stop; otherwise m_rootTimer is removed; either way OnStopped(true) follows |
| RootNode.OnStoppingSilentListener | UnityRSToolkit/Assets/RSToolKit/Scripts/AI/Behaviour/Decorator/BehaviourRootNode.cs:72-80 | m_rootTimer is removed only when the child is not ACTIVE; the child is never asked to stop and nothing is raised |
| RootNode.SetParent | UnityRSToolkit/Assets/RSToolKit/Scripts/AI/Behaviour/Decorator/BehaviourRootNode.cs:85-88 | every call throws "Root nodes cannot have parents" |
| RootNode.UpdateRecursively | UnityRSToolkit/Assets/RSToolKit/Scripts/AI/Behaviour/Decorator/BehaviourRootNode.cs:95-102 | asleep, it returns false and changes nothing; awake, it returns the base update's result |
| RootNode.Wake | UnityRSToolkit/Assets/RSToolKit/Scripts/AI/Behaviour/Decorator/BehaviourRootNode.cs:104-107 | the result is the arena with the root's sleep flag cleared and nothing else changed |
| RootNode.Sleep | UnityRSToolkit/Assets/RSToolKit/Scripts/AI/Behaviour/Decorator/BehaviourRootNode.cs:109-112 | the result is the arena with the root's sleep flag set and nothing else changed |
| RootNode.SleepGatesUpdate | UnityRSToolkit/Assets/RSToolKit/Scripts/AI/Behaviour/Decorator/BehaviourRootNode.cs:95-112 | after Sleep an update does nothing and returns false; after Wake it passes the base result on |
| RootNode.SleepWakeRoundTrip | UnityRSToolkit/Assets/RSToolKit/Scripts/AI/Behaviour/Decorator/BehaviourRootNode.cs:104-112 | Sleep and Wake undo each other |
| SelectorNode.NewSelector | UnityRSToolkit/Assets/RSToolKit/Scripts/AI/Behaviour/Composite/BehaviourSelector.cs:9-11 | a selector is an INACTIVE composite named "Selector" that keeps isRandom |
| SelectorNode.ProcessChildNodeSequence | UnityRSToolkit/Assets/RSToolKit/Scripts/AI/Behaviour/Composite/BehaviourSelector.cs:13-16 | the parameterless step always delegates with argument false |
| SelectorNode.OnChildNodeStoppedListener | UnityRSToolkit/Assets/RSToolKit/Scripts/AI/Behaviour/Composite/BehaviourSelector.cs:19-29 | it advances iff the child succeeded and raises OnStopped(false) iff it failed, with no node changed |
| BehaviourTree.StartNode | UnityRSToolkit/Assets/RSToolKit/Scripts/AI/Behaviour/BehaviourNode.cs:269-286 | StartNode with the listeners it triggers: success iff INACTIVE and the parent is absent or ACTIVE; then ACTIVE with a null result and every other field of the node kept (a root's sleep flag aside), and the node's start event comes first with no later event about the node; no node but the node and, for a non-silent root start, its child changes; a plain node gets only the base start, a root additionally its OnStarted or OnStartedSilent listener; on failure nothing changes |
| BehaviourTree.RequestStopNode | UnityRSToolkit/Assets/RSToolKit/Scripts/AI/Behaviour/BehaviourNode.cs:292-305 | RequestStopNode with the listeners it triggers: success iff ACTIVE; the node is then STOPPING with every field but its timers kept, and its stopping event comes first; no node but the node and, for a non-silent root request, its child changes; a plain node gets only the base request, a root additionally its OnStopping or OnStoppingSilent listener; otherwise nothing changes |
| BehaviourTree.ChildStopped | UnityRSToolkit/Assets/RSToolKit/Scripts/AI/Behaviour/BehaviourNode.cs:321-325 | the parent's child-stopped listener changes no node but the parent, and changes no node at all unless the parent is a root; it leaves the parent's state and result alone and only appends to the log |
| BehaviourTree.StopNode | UnityRSToolkit/Assets/RSToolKit/Scripts/AI/Behaviour/BehaviourNode.cs:314-334 | StopNode with the listeners it triggers: from a state other than INACTIVE, the node ends INACTIVE with Result = success and its other fields kept, its own stopped event first and the parent's notification next; no node but the node and its parent changes; a silent stop or one without a parent is the base stop alone, otherwise the parent's child-stopped listener runs after it; from INACTIVE nothing changes |
| BehaviourTree.SetParent | UnityRSToolkit/Assets/RSToolKit/Scripts/AI/Behaviour/BehaviourNode.cs:210-221 | it throws iff the node is a root or the new parent is a TASK; otherwise only Parent changes |
| BehaviourTree.StartTwiceIsRefused | UnityRSToolkit/Assets/RSToolKit/Scripts/AI/Behaviour/BehaviourNode.cs:269-274 | a second start right after a successful one fails and changes nothing |
| BehaviourTree.StopTwiceIsRefused | UnityRSToolkit/Assets/RSToolKit/Scripts/AI/Behaviour/BehaviourNode.cs:314-334 | a second stop right after a successful one fails and changes nothing |
| BehaviourTree.RootStartStartsChild | UnityRSToolkit/Assets/RSToolKit/Scripts/AI/Behaviour/Decorator/BehaviourRootNode.cs:32-36 | a non-silent start of a root wakes it and starts its INACTIVE child at once: OnStarted(root) then OnStarted(child) |
| BehaviourTree.RootSilentStartLeavesChild | UnityRSToolkit/Assets/RSToolKit/Scripts/AI/Behaviour/Decorator/BehaviourRootNode.cs:38-41 | a silent start of a root puts it to sleep and leaves the child as it was |
| BehaviourTree.RootStoppingIsSticky | UnityRSToolkit/Assets/RSToolKit/Scripts/AI/Behaviour/Decorator/BehaviourRootNode.cs:43-56 | a STOPPING root stays STOPPING: a child stop only makes it raise OnStopped(success), and it can be neither started nor asked to stop again |
| BehaviourTree.RootStopRequestReachesChild | UnityRSToolkit/Assets/RSToolKit/Scripts/AI/Behaviour/Decorator/BehaviourRootNode.cs:59-70 | a stop request to a root with an ACTIVE child makes both STOPPING, with OnStopping(root), OnStopping(child), OnStopped(root, true) |
| BehaviourTree.SelectorFailureOnlyRaisesEvent | UnityRSToolkit/Assets/RSToolKit/Scripts/AI/Behaviour/Composite/BehaviourSelector.cs:19-29 | a failed child makes the selector raise OnStopped(false) and nothing else; the selector's node is unchanged |
| BehaviourTree.SelectorSuccessAdvances | UnityRSToolkit/Assets/RSToolKit/Scripts/AI/Behaviour/Composite/BehaviourSelector.cs:19-24 | a successful child makes the selector advance and raise nothing of its own |
| BehaviourTree.PassRestartsChild | UnityRSToolkit/Assets/RSToolKit/Scripts/AI/Behaviour/BehaviourNode.cs:363-379 | a timer pass over an ACTIVE root whose last timer is a due restart leaves the root's child ACTIVE, whatever the earlier timers do, provided the child was not STOPPING |
| BehaviourTree.DeferredRestart | UnityRSToolkit/Assets/RSToolKit/Scripts/AI/Behaviour/Decorator/BehaviourRootNode.cs:43-50 | the root restarts its stopped child one tick late: the child stays INACTIVE with a pending m_rootTimer, and the root's next UpdateTimers makes it ACTIVE |
| Runtime.Behaviours.constructor | UnityRSToolkit/Assets/RSToolKit/Scripts/AI/Behaviour/BehaviourNode.cs:71-71 | no nodes, no events, the clock at zero |
| Runtime.Behaviours.StartNode | UnityRSToolkit/Assets/RSToolKit/Scripts/AI/Behaviour/BehaviourNode.cs:269-286 | the in-place start ends in BehaviourTree.StartNode of the old state |
| Runtime.Behaviours.RequestStopNode | UnityRSToolkit/Assets/RSToolKit/Scripts/AI/Behaviour/BehaviourNode.cs:292-305 | the in-place stop request ends in BehaviourTree.RequestStopNode of the old state |
| Runtime.Behaviours.StopNode | UnityRSToolkit/Assets/RSToolKit/Scripts/AI/Behaviour/BehaviourNode.cs:314-334 | the in-place stop ends in BehaviourTree.StopNode of the old state |
| Runtime.Behaviours.SetParent | UnityRSToolkit/Assets/RSToolKit/Scripts/AI/Behaviour/BehaviourNode.cs:210-221 | it reports the exception BehaviourTree.SetParent throws and changes nothing then; otherwise it ends in its result |
| Runtime.Behaviours.AddTimer | UnityRSToolkit/Assets/RSToolKit/Scripts/AI/Behaviour/BehaviourNode.cs:223-233 | it ends in Nodes.AddTimer of the old state and returns the new timer |
| Runtime.Behaviours.RunOnNextTick | UnityRSToolkit/Assets/RSToolKit/Scripts/AI/Behaviour/BehaviourNode.cs:235-238 | it ends in Nodes.RunOnNextTick of the old state |
| Runtime.Behaviours.RemoveTimer | UnityRSToolkit/Assets/RSToolKit/Scripts/AI/Behaviour/BehaviourNode.cs:245-248 | it ends in Nodes.RemoveTimer of the old state |
| Runtime.Behaviours.RunAction | UnityRSToolkit/Assets/RSToolKit/Scripts/AI/Behaviour/BehaviourNode.cs:139-139 | invoking a fired timer's action ends in Nodes.RunAction of the old state |
| Runtime.Behaviours.UpdateTimers | UnityRSToolkit/Assets/RSToolKit/Scripts/AI/Behaviour/BehaviourNode.cs:363-379 | the loop that removes in place and steps back ends in Nodes.UpdateTimers of the old state |
| Runtime.Behaviours.UpdateTime | UnityRSToolkit/Assets/RSToolKit/Scripts/AI/Behaviour/BehaviourNode.cs:78-81 | it ends in Nodes.UpdateTime of the old state |
| Runtime.Behaviours.OverrideElapsedTime | UnityRSToolkit/Assets/RSToolKit/Scripts/AI/Behaviour/BehaviourNode.cs:73-76 | it ends in Nodes.OverrideElapsedTime of the old state |
| Runtime.Behaviours.StartChildNode | UnityRSToolkit/Assets/RSToolKit/Scripts/AI/Behaviour/Decorator/BehaviourRootNode.cs:90-93 | it starts `Children[0]` non-silently |
| Runtime.Behaviours.OnStartedListener | UnityRSToolkit/Assets/RSToolKit/Scripts/AI/Behaviour/Decorator/BehaviourRootNode.cs:32-36 | it ends in RootNode.OnStartedListener of the old state |
| Runtime.Behaviours.OnStartedSilentListener | UnityRSToolkit/Assets/RSToolKit/Scripts/AI/Behaviour/Decorator/BehaviourRootNode.cs:38-41 | it ends in RootNode.OnStartedSilentListener of the old state |
| Runtime.Behaviours.RootOnChildNodeStopped | UnityRSToolkit/Assets/RSToolKit/Scripts/AI/Behaviour/Decorator/BehaviourRootNode.cs:43-56 | it ends in RootNode.OnChildNodeStoppedListener of the old state |
| Runtime.Behaviours.OnStoppingListener | UnityRSToolkit/Assets/RSToolKit/Scripts/AI/Behaviour/Decorator/BehaviourRootNode.cs:59-70 | it ends in RootNode.OnStoppingListener of the old state |
| Runtime.Behaviours.OnStoppingSilentListener | UnityRSToolkit/Assets/RSToolKit/Scripts/AI/Behaviour/Decorator/BehaviourRootNode.cs:72-80 | it ends in RootNode.OnStoppingSilentListener of the old state |
| Runtime.Behaviours.UpdateRecursively | UnityRSToolkit/Assets/RSToolKit/Scripts/AI/Behaviour/Decorator/BehaviourRootNode.cs:95-102 | it ends in RootNode.UpdateRecursively of the old state |
| Runtime.Behaviours.Wake | UnityRSToolkit/Assets/RSToolKit/Scripts/AI/Behaviour/Decorator/BehaviourRootNode.cs:104-107 | it ends in RootNode.Wake of the old state |
| Runtime.Behaviours.Sleep | UnityRSToolkit/Assets/RSToolKit/Scripts/AI/Behaviour/Decorator/BehaviourRootNode.cs:109-112 | it ends in RootNode.Sleep of the old state |
| Runtime.Behaviours.SelectorOnChildNodeStopped | UnityRSToolkit/Assets/RSToolKit/Scripts/AI/Behaviour/Composite/BehaviourSelector.cs:19-29 | it ends in SelectorNode.OnChildNodeStoppedListener of the old state |
| UnityTypes.RandomFloatWithinRange | UnityRSToolkit/Assets/RSToolKit/Scripts/AI/Bot/Locomotion/BotPartWanderManager.cs:102-102 | for lo <= hi the value lies in [lo, hi], at lo for roll 0 and at hi for roll 1 |
| WanderManager.NewManager | UnityRSToolkit/Assets/RSToolKit/Scripts/AI/Bot/Locomotion/BotPartWanderManager.cs:26-26 | a new machine is NotWandering with no current component |
| WanderManager.IsWandering | UnityRSToolkit/Assets/RSToolKit/Scripts/AI/Bot/Locomotion/BotPartWanderManager.cs:143-147 | IsWandering holds exactly in FindNewPosition and MovingToPosition |
| WanderManager.GetWaitTime | UnityRSToolkit/Assets/RSToolKit/Scripts/AI/Bot/Locomotion/BotPartWanderManager.cs:93-105 | 0.1 right after NotWandering or CannotWander; otherwise WaitTime, or a value in [0.75 WaitTime, WaitTime] when the wait is randomised |
| WanderManager.Wander | UnityRSToolkit/Assets/RSToolKit/Scripts/AI/Bot/Locomotion/BotPartWanderManager.cs:112-127 | the radius always goes to the component; CanWander false gives CannotWander and false; it returns true iff it can wander and was NotWandering, moving to FindNewPosition; otherwise the state is unchanged |
| WanderManager.StopWandering | UnityRSToolkit/Assets/RSToolKit/Scripts/AI/Bot/Locomotion/BotPartWanderManager.cs:128-141 | it returns true iff the machine was not NotWandering, and then goes to NotWandering, telling the bot to stop moving when asked; from NotWandering nothing changes |
| WanderManager.StopWanderingIdempotent | UnityRSToolkit/Assets/RSToolKit/Scripts/AI/Bot/Locomotion/BotPartWanderManager.cs:128-141 | a second StopWandering reports false and changes nothing |
| WanderManager.SetCurrentBotWander | UnityRSToolkit/Assets/RSToolKit/Scripts/AI/Bot/Locomotion/BotPartWanderManager.cs:72-83 | it throws iff the component is not held; otherwise it stops wandering (stopping the bot) and then makes the component current |
| WanderManager.Initialize | UnityRSToolkit/Assets/RSToolKit/Scripts/AI/Bot/Locomotion/BotPartWanderManager.cs:248-252 | a new manager takes its initial component, or throws when it does not hold it |
| WanderManager.FindNewPositionEnter | UnityRSToolkit/Assets/RSToolKit/Scripts/AI/Bot/Locomotion/BotPartWanderManager.cs:164-168 | the bot unfocuses and the countdown is set to GetWaitTime |
| WanderManager.FindNewPositionUpdate | UnityRSToolkit/Assets/RSToolKit/Scripts/AI/Bot/Locomotion/BotPartWanderManager.cs:171-185 | the countdown drops by the frame time; while positive nothing else changes; once it runs out, a found position is focused and the state becomes MovingToPosition, and no position gives CannotWander |
| WanderManager.CountdownLeavesOnTime | UnityRSToolkit/Assets/RSToolKit/Scripts/AI/Bot/Locomotion/BotPartWanderManager.cs:163-185 | the machine stays in FindNewPosition while the frame times sum to less than the wait, and has left it (to MovingToPosition or CannotWander) once they reach it |
| WanderManager.MovingToPositionUpdate | UnityRSToolkit/Assets/RSToolKit/Scripts/AI/Bot/Locomotion/BotPartWanderManager.cs:189-201 | CanWander false gives CannotWander; otherwise a bot that stopped moving goes to FindNewPosition with AutoWander and to NotWandering without it; a moving bot stays |
| WanderManager.MovingToPositionEnter | UnityRSToolkit/Assets/RSToolKit/Scripts/AI/Bot/Locomotion/BotPartWanderManager.cs:203-216 | with a positive movement timeout the bot is told to move, and a move that does not start gives CannotWander; without one nothing happens |
| WanderManager.CannotWanderUpdate | UnityRSToolkit/Assets/RSToolKit/Scripts/AI/Bot/Locomotion/BotPartWanderManager.cs:238-244 | the machine goes to FindNewPosition when it can wander again and is otherwise unchanged |
| WanderRuntime.BotPartWanderManager.constructor | UnityRSToolkit/Assets/RSToolKit/Scripts/AI/Bot/Locomotion/BotPartWanderManager.cs:248-252 | the new object is in the state WanderManager.Initialize gives |
| WanderRuntime.BotPartWanderManager.SetCurrentBotWander | UnityRSToolkit/Assets/RSToolKit/Scripts/AI/Bot/Locomotion/BotPartWanderManager.cs:72-83 | it reports the exception and changes nothing, or ends in WanderManager.SetCurrentBotWander of the old state |
| WanderRuntime.BotPartWanderManager.Wander | UnityRSToolkit/Assets/RSToolKit/Scripts/AI/Bot/Locomotion/BotPartWanderManager.cs:112-127 | it ends in WanderManager.Wander of the old state |
| WanderRuntime.BotPartWanderManager.StopWandering | UnityRSToolkit/Assets/RSToolKit/Scripts/AI/Bot/Locomotion/BotPartWanderManager.cs:128-141 | it ends in WanderManager.StopWandering of the old state |
| WanderRuntime.BotPartWanderManager.GetWaitTime | UnityRSToolkit/Assets/RSToolKit/Scripts/AI/Bot/Locomotion/BotPartWanderManager.cs:93-105 | it returns WanderManager.GetWaitTime of the current state |
| WanderRuntime.BotPartWanderManager.FindNewPositionEnter | UnityRSToolkit/Assets/RSToolKit/Scripts/AI/Bot/Locomotion/BotPartWanderManager.cs:164-168 | it ends in WanderManager.FindNewPositionEnter of the old state |
| WanderRuntime.BotPartWanderManager.FindNewPositionUpdate | UnityRSToolkit/Assets/RSToolKit/Scripts/AI/Bot/Locomotion/BotPartWanderManager.cs:171-185 | it ends in WanderManager.FindNewPositionUpdate of the old state |
| WanderRuntime.BotPartWanderManager.MovingToPositionUpdate | UnityRSToolkit/Assets/RSToolKit/Scripts/AI/Bot/Locomotion/BotPartWanderManager.cs:189-201 | it ends in WanderManager.MovingToPositionUpdate of the old state |
| WanderRuntime.BotPartWanderManager.MovingToPositionEnter | UnityRSToolkit/Assets/RSToolKit/Scripts/AI/Bot/Locomotion/BotPartWanderManager.cs:203-216 | it ends in WanderManager.MovingToPositionEnter of the old state |
| WanderRuntime.BotPartWanderManager.CannotWanderUpdate | UnityRSToolkit/Assets/RSToolKit/Scripts/AI/Bot/Locomotion/BotPartWanderManager.cs:238-244 | it ends in WanderManager.CannotWanderUpdate of the old state |
| Bots.NewBot | UnityRSToolkit/Assets/RSToolKit/Scripts/AI/Bot/Bot.cs:92-96 | a new bot has noticed nothing, has no focus, and has forgetting switched off (-1) |
| Bots.NoticeTransform | UnityRSToolkit/Assets/RSToolKit/Scripts/AI/Bot/Bot.cs:220-228 | the target is added, and it returns true iff it was not already noticed; otherwise nothing changes |
| Bots.ForgetTransform | UnityRSToolkit/Assets/RSToolKit/Scripts/AI/Bot/Bot.cs:252-260 | exactly the target leaves the noticed set |
| Bots.NoticeForgetRoundTrip | UnityRSToolkit/Assets/RSToolKit/Scripts/AI/Bot/Bot.cs:220-260 | noticing a new transform and forgetting it restores the bot |
| Bots.FocusOnTransform | UnityRSToolkit/Assets/RSToolKit/Scripts/AI/Bot/Bot.cs:262-271 | afterwards the target is both noticed and focused |
| Bots.StartForgetTransform | UnityRSToolkit/Assets/RSToolKit/Scripts/AI/Bot/Bot.cs:230-242 | a delayed forget is scheduled iff the timeout is positive |
| Bots.UnFocus | UnityRSToolkit/Assets/RSToolKit/Scripts/AI/Bot/Bot.cs:273-286 | without a focused transform it returns false and changes nothing; otherwise it schedules the forget, clears the focus, keeps the transform noticed and returns true |
| Bots.FocusOnPosition | UnityRSToolkit/Assets/RSToolKit/Scripts/AI/Bot/Bot.cs:215-218 | only the stored position changes |
| Bots.FocusedOnPosition | UnityRSToolkit/Assets/RSToolKit/Scripts/AI/Bot/Bot.cs:98-113 | with a focused transform, reading clears the stored position and yields the transform's position; otherwise it yields the stored one |
| Bots.IsFocused | UnityRSToolkit/Assets/RSToolKit/Scripts/AI/Bot/Bot.cs:114-120 | it holds iff a transform or a position is the focus, which is iff the read is non-null, with the read's side effect |
| Bots.FocusedOnPositionReadTwice | UnityRSToolkit/Assets/RSToolKit/Scripts/AI/Bot/Bot.cs:98-113 | a second read gives the same answer and changes nothing more |
| Bots.FocusOnPositionHiddenByTransform | UnityRSToolkit/Assets/RSToolKit/Scripts/AI/Bot/Bot.cs:98-113 | while a transform is focused, a position set by FocusOnPosition is never read back and the next read discards it |
| Bots.CanInteractWith | UnityRSToolkit/Assets/RSToolKit/Scripts/AI/Bot/Bot.cs:305-308 | a bot may interact with a target focused on it; never with a target focused on something else; with an unfocused target exactly when the target has not noticed it |
| Bots.SqrInteractionMagnitude | UnityRSToolkit/Assets/RSToolKit/Scripts/AI/Bot/Bot.cs:123-129 | the squared interaction magnitude is never negative |
| Bots.IsWithinInteractionDistance | UnityRSToolkit/Assets/RSToolKit/Scripts/AI/Bot/Bot.cs:162-165 | a bot is always within interaction distance of its own position, and the test is the same whichever of the two points is the origin |
| UnityTypes.IsWithinDistance | UnityRSToolkit/Assets/RSToolKit/Scripts/AI/Helpers/ProximityHelpers.cs:64-79 | a negative bound admits no point; a point is within any non-negative bound of itself; the test is symmetric in the two points |
| Bots.FocusThenCanInteract | UnityRSToolkit/Assets/RSToolKit/Scripts/AI/Bot/Bot.cs:305-308 | a target focused on me lets me interact |
| Bots.UnFocusBlocksUntilForgotten | UnityRSToolkit/Assets/RSToolKit/Scripts/AI/Bot/Bot.cs:305-308 | a target that focused on me and then unfocused blocks interaction until it forgets me |
| Bots.FocusedElsewhereBlocks | UnityRSToolkit/Assets/RSToolKit/Scripts/AI/Bot/Bot.cs:305-308 | a target focused on another transform blocks interaction |
| Bots.AttractMyAttentionToTransform | UnityRSToolkit/Assets/RSToolKit/Scripts/AI/Bot/Bot.cs:182-193 | given the answer of the distance check, the bot focuses on the target and returns true when it passes; otherwise nothing changes and it returns false |
| Bots.AttractMyAttentionFromBot | UnityRSToolkit/Assets/RSToolKit/Scripts/AI/Bot/Bot.cs:200-207 | a target already focused on me returns true unchanged; otherwise the target tries to attract its attention to me; on true the target is focused on me and I can interact with it |
| Bots.IsWithinInteractionDistanceOfTransformAsWritten | UnityRSToolkit/Assets/RSToolKit/Scripts/AI/Bot/Bot.cs:171-174 | as written, the check measures the bot's own position and passes for every target |
| Bots.AttractMyAttentionToTransformAsWritten | UnityRSToolkit/Assets/RSToolKit/Scripts/AI/Bot/Bot.cs:182-193 | as written, the bot focuses on the target and returns true wherever the target is |
| Bots.FarTargetAttractsAttentionAsWritten | UnityRSToolkit/Assets/RSToolKit/Scripts/AI/Bot/Bot.cs:171-193 | a target 100 units away attracts the attention of a bot with interaction magnitude 1.35 as written, but not when the target's own position is measured |
| Bots.AttractMyAttentionFromBotAlwaysSucceedsAsWritten | UnityRSToolkit/Assets/RSToolKit/Scripts/AI/Bot/Bot.cs:200-207 | as written, AttractMyAttention_FromBot always returns true, with the target focused on me and me able to interact with it |
| Bots.AttractMyAttentionToTransformIntended | UnityRSToolkit/Assets/RSToolKit/Scripts/AI/Bot/Bot.cs:162-193 | as intended, the bot focuses on the target and returns true exactly when the target's position is within its interaction distance (ProximityHelpers.IsWithinDistance with SqrInteractionMagnitude); otherwise nothing changes |
| Bots.AttractMyAttentionIntendedIsDecidedByDistance | UnityRSToolkit/Assets/RSToolKit/Scripts/AI/Helpers/ProximityHelpers.cs:64-79 | as intended, a target beyond the distance bound is refused with nothing changed, and a target at the bot's own position is accepted |
| Bots.OthersAreTheRest | UnityRSToolkit/Assets/RSToolKit/Scripts/AI/Bot/Bot.cs:57-63 | a component is told to stop iff it is held and is not the new current one |
| Bots.SetCurrentBotWander | UnityRSToolkit/Assets/RSToolKit/Scripts/AI/Bot/Bot.cs:52-69 | it throws iff the component is not held; otherwise it becomes current and every other component, in order, is told to stop wandering |
| Bots.SetCurrentBotWanderStopsOthers | UnityRSToolkit/Assets/RSToolKit/Scripts/AI/Bot/Bot.cs:52-69 | the new current component is never told to stop, and every other held one is |
| BotRuntime.Bot.constructor | UnityRSToolkit/Assets/RSToolKit/Scripts/AI/Bot/Bot.cs:92-96 | the new object is Bots.NewBot |
| BotRuntime.Bot.SetCurrentBotWander | UnityRSToolkit/Assets/RSToolKit/Scripts/AI/Bot/Bot.cs:52-69 | the loop over the components reports the exception and changes nothing, or ends in Bots.SetCurrentBotWander of the old state |
| BotRuntime.Bot.NoticeTransform | UnityRSToolkit/Assets/RSToolKit/Scripts/AI/Bot/Bot.cs:220-228 | it ends in Bots.NoticeTransform of the old state |
| BotRuntime.Bot.ForgetTransform | UnityRSToolkit/Assets/RSToolKit/Scripts/AI/Bot/Bot.cs:252-260 | it ends in Bots.ForgetTransform of the old state |
| BotRuntime.Bot.FocusOnTransform | UnityRSToolkit/Assets/RSToolKit/Scripts/AI/Bot/Bot.cs:262-271 | it ends in Bots.FocusOnTransform of the old state |
| BotRuntime.Bot.StartForgetTransform | UnityRSToolkit/Assets/RSToolKit/Scripts/AI/Bot/Bot.cs:230-242 | it ends in Bots.StartForgetTransform of the old state |
| BotRuntime.Bot.UnFocus | UnityRSToolkit/Assets/RSToolKit/Scripts/AI/Bot/Bot.cs:273-286 | it ends in Bots.UnFocus of the old state |
| BotRuntime.Bot.FocusOnPosition | UnityRSToolkit/Assets/RSToolKit/Scripts/AI/Bot/Bot.cs:215-218 | it ends in Bots.FocusOnPosition of the old state |
| BotRuntime.Bot.FocusedOnPosition | UnityRSToolkit/Assets/RSToolKit/Scripts/AI/Bot/Bot.cs:98-113 | it ends in Bots.FocusedOnPosition of the old state |
| BotRuntime.Bot.IsFocused | UnityRSToolkit/Assets/RSToolKit/Scripts/AI/Bot/Bot.cs:114-120 | it ends in Bots.IsFocused of the old state |
| BotRuntime.Bot.CanInteractWith | UnityRSToolkit/Assets/RSToolKit/Scripts/AI/Bot/Bot.cs:305-308 | it holds iff the target is focused on this bot, or the target has no focus and has not noticed this bot |
| BotRuntime.Bot.AttractMyAttentionToTransform | UnityRSToolkit/Assets/RSToolKit/Scripts/AI/Bot/Bot.cs:182-193 | it ends in Bots.AttractMyAttentionToTransform of the old state |
| BotRuntime.Bot.AttractMyAttentionFromBot | UnityRSToolkit/Assets/RSToolKit/Scripts/AI/Bot/Bot.cs:200-207 | the target ends in Bots.AttractMyAttentionFromBot of its old state |

## Left out

- Floating point: `float` and `double` are modelled as exact reals, so rounding is not modelled.
- UnityEvent machinery: invocations are appended to a log. Only the listeners that the root and the selector register are run. Listeners that other code adds are not part of this model.
- Base classes that are not part of this model:
  - BehaviourParentNode: its child list, `UpdateRecursively`, and the OnChildNodeStopped events of parents other than roots and selectors.
  - BehaviourSequenceSelectBase: `ProcessChildNodeSequence(bool)` and the random ordering. A call to either is recorded as an `Advanced` or `BaseUpdate` event.
  - Subclasses that override `StartNode`, `RequestStopNode` or `StopNode`.
- Object identity: nodes are indices into one arena, and timers are values carrying an id. `NodeTimer.Update` is a function on the timer value, which the `UpdateTimers` loop writes back in place. Aliasing between node objects and timer objects is not modelled.
- Timer actions: an action is either the root's StartChildNode or an opaque callback, which is only recorded in the log. A callback that changes the timer list in the middle of `UpdateTimers` is not modelled.
- `m_timerCount`: it is written by `UpdateTimers` and never read.
- `HasTimer`, the empty virtual `Update` and the `UNITY_EDITOR` debug tools.
- `UnityEngine.Random.value` in `SetTimeoutIn`, and `RandomHelpers.RandomFloatWithinRange`, become a parameter `roll` in [0, 1]. RandomHelpers itself is not part of this model.
- Nodes.GetRoot: it is stated for a parent chain that ends within a given number of steps (`ChainEnds`). On a cyclic chain without a root, the source recurses until the stack overflows, and `SelfParentNeverEnds` shows such a chain.
- A root without a child: `Children[0]` would throw. The model requires every root to have a first child that is not a root.
- BTFiniteStateMachine is not part of this model. `ChangeState` sets current := new and last := old. The entry and update handlers that `InitStates` registers are separate operations, and when the machine runs them is not modelled. `MovingToPosition_Exit`, the coroutine `MovingToPosition_TimeOut`, `AddFSM` and the parameterless `Wander()` (it passes the locomotion's awareness radius to `Wander(radius)`) are left out.
- Engine answers are parameters:
  - `CanWander()`
  - `GetNewWanderPosition(WanderCenter)`
  - whether the bot is NotMoving
  - whether `MoveToPosition` started
  - `Time.deltaTime`
  - a focused transform's position
  - the distance checks
- Calls the manager makes on the locomotion and wander components are recorded in a call list.
- WanderManager.GetWaitTime, WanderManager.Wander and the state handlers that read the current component require one. Without one, the source throws a NullReferenceException.
- WanderManager.CountdownLeavesOnTime: it is stated for a positive wait. With a wait of zero or less, the first update already leaves FindNewPosition, which `FindNewPositionUpdate` states.
- Bot distance and facing checks: in the bot state machine they are a boolean parameter `within`. `Bot.cs:164` calls `ProximityHelpers.IsWithinDistance` with three arguments although no overload declares a default for its direction parameter; the model assumes the direction is ALL, over all three axes, and models that case (`UnityTypes.IsWithinDistance`) as written: it compares the unsquared distance with the squared magnitude. The facing checks and the HORIZONTAL and VERTICAL projections are left out. `IsWithinPersonalSpace(Transform)` has the same self-measuring defect as `IsWithinInteractionDistance(Transform)` (see Findings); it has no caller in the modelled operations.
- The coroutine `DelayedForgetTransform`: scheduling it appends the target to `pendingForgets`. Its eventual effect is `ForgetTransform`.
- Bot delegations to BotWander and BotMovement are left out: `Wander`, `StopWandering`, `IsWandering`, `Move*`, `RotateTowardsPosition`, `StopMoving` and `GetMovementState`. So are `SetCurrentBotMovement`, `Start`, the Animator, `GetComponent(s)` lookups and `OnDrawGizmos`. A StopWandering call on a BotWander component is recorded by its identity.
- The parameterless `AttractMyAttention_ToTransform()` and `AttractMyAttention_FromBot()` overloads are left out. They act on `FocusedOnTransform`, which may be null.

## Findings

| source | as written | input that shows it | evidently intended | confidence | as-written member | corrected member |
|---|---|---|---|---|---|---|
| UnityRSToolkit/Assets/RSToolKit/Scripts/AI/Behaviour/BehaviourNode.cs:119-123 | `IsFinished` is `Repeat > -1 \|\| TimeOutCount > Repeat`, which holds for every timer with Repeat >= 0, including one that has never fired | `RunOnNextTick(action)` on a node with no timers, then `UpdateTimers()`: the timer (Repeat 0, AutoRemove) is removed before `Update` runs, so `action` is never invoked | `Repeat > -1 && TimeOutCount > Repeat`: a finite timer that has used up its repeats, which is exactly "not IsActive" | not executed | Nodes.RunOnNextTickIsDroppedUnfired | Nodes.RunOnNextTickRunsOnceIntended |
| UnityRSToolkit/Assets/RSToolKit/Scripts/AI/Bot/Bot.cs:171-174 | `IsWithinInteractionDistance(Transform target)` passes the bot's own `transform.position` to the Vector3 overload, so it measures the distance from the bot to itself, which is 0 and never above `SqrInteractionMagnitude`; `AttractMyAttention_ToTransform(target)` therefore always focuses on the target and returns true, and so does `AttractMyAttention_FromBot` | a bot at (0, 0, 0) with `interactionMagnitude` 1.35 and a target at (100, 0, 0): `AttractMyAttention_ToTransform(target)` returns true | `IsWithinInteractionDistance(target.position)`: the target is attracted only when its position is within the interaction distance | not executed | Bots.FarTargetAttractsAttentionAsWritten | Bots.AttractMyAttentionToTransformIntended |

The corrected test is `NodeTimer.IsFinishedIntended`, and `Nodes.IsFinishedIntendedIsInactive` relates it to `IsActive`. The pruning loop takes the test as a parameter (`FinishRule`). The runtime classes run the program as written. The corrected rule is proved to run a RunOnNextTick callback exactly once and then remove its timer. `Nodes.RunOnNextTickIsErasedAsWritten` states the as-written behaviour for any existing timer list.

For the distance check, `Bots.AttractMyAttentionToTransform` and the runtime `BotRuntime.Bot.AttractMyAttentionToTransform` take the check's answer as the parameter `within`. `Bots.AttractMyAttentionToTransformIntended` supplies the corrected answer, measured from the target's position; `Bots.AttractMyAttentionToTransformAsWritten` supplies the program's, which is always true.
