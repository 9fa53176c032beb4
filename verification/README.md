# AVM1 symbol glue of Shumway, modelled in Dafny

Shumway's AVM1 runtime gives every display object an ActionScript 1/2
"façade" object and keeps the two in step. `src/avm1/lib/AVM1Utils.ts` holds
that glue, and this project models it:

- **Event-property names.** `normalizeEventName` lower-cases a name unless
  the context is case-sensitive. The module is `Names`.
- **Symbol event binding.** `AVM1SymbolBase` binds a table of event handlers
  to its display object. A host listener is kept for a handler exactly while
  `avm1HasEventProperty` holds. The façade registers itself as an observer
  of each property name and re-evaluates when notified. It unbinds on
  `removedFromStage`. The module is `SymbolEvents`.
- **Broadcasting.** `avm1BroadcastNativeEvent` and `avm1BroadcastEvent` call
  the target's own handler and then the handler of every `_listeners` entry.
  The attach rule `avm1HasEventProperty` lives in the same module,
  `Broadcast`.
- **Target paths.** `AVM1Utils.getTarget` builds the slash-syntax path
  (`TargetPath`).
- **Façade creation.** `createAVM1NativeObject` and `getAVM1Object` create
  façades once and cache them on the host object (`Facades`).
- **Native member wrapping.** `wrapAVM1NativeMembers` exposes host members
  on an AVM1 object. Functions are wrapped, and `name#` property mappings
  become accessors (`NativeWrap`).
- **Clip actions.** `initializeAVM1Object` and `ClipEventMappings` handle a
  PlaceObject tag's clip actions:
  - their action blocks are compiled once and cached;
  - every set flag is routed to a host or stage listener;
  - "button mode" is set for the button events;
  - a teardown listener is added for the stage listeners.

  The module is `ClipEvents`.

State is immutable.

- The AVM1 heap (`Avm1Heap`) holds objects with case-normalised property
  keys and prototype links. The host objects' JavaScript side is a separate
  realm (`HostRealm`).
- Every call into the host or the context is appended to a trace of
  `Effect`s (`Effects`). Examples are adding or removing an event listener,
  (un)registering an observer, running a constructor, compiling an action
  block and setting button mode.
- `Replay` folds a trace into the set of live listener registrations.
  `Observed` folds it into the multiset of observer registrations.

Errors follow a release build of the player. The `Debug.assert`s are
compiled out, so a JavaScript `TypeError` (reading a field of `null` or
`undefined`) is `Err(NullReference)`. `getAVM1Object` evaluates
`new as3Object` on a BitmapData instance, which is not a constructor, so it
yields `Err(NotAConstructor)` (see Findings).

The clip-event flag values come from the SWF parser's `AVM1ClipEvents`
enumeration. That enumeration is not part of this model. Its members are
taken to be the powers of two `1 << i`, in the order Load, EnterFrame,
Unload, MouseMove, MouseDown, MouseUp, KeyDown, KeyUp, Data, Initialize,
Press, Release, ReleaseOutside, RollOver, RollOut, DragOver, DragOut,
KeyPress, Construct. The `for … in` loop over `ClipEventMappings` meets
integer keys in ascending order, so the model visits the events in that
order.

## Model

| member | source | states |
|---|---|---|
| Names.NormalizeIdempotent | src/avm1/lib/AVM1Utils.ts:41-43 | Normalising an already normalised name changes nothing. |
| Names.NormalizeSameKey | src/avm1/lib/AVM1Utils.ts:41-43 | A case-insensitive context maps two names to the same key exactly when they agree up to ASCII case. A case-sensitive context does so exactly when they are equal. |
| Names.FooAndfooShareKey | src/avm1/lib/AVM1Utils.ts:41-43 | "Foo" and "foo" share a key in a case-insensitive context and not in a case-sensitive one. |
| HostRealm.FindDescriptorNearest | src/avm1/lib/AVM1Utils.ts:288-297 | A descriptor `getMemberDescriptor` finds is the own descriptor of an object on the host prototype chain within the walk's bound, and no nearer object of the chain has one, so the nearest definition wins. |
| HostRealm.FindDescriptorComplete | src/avm1/lib/AVM1Utils.ts:288-297 | When the walk finds nothing, no object on the chain within the bound has an own descriptor for the name. |
| HostRealm.Get | src/avm1/lib/AVM1Utils.ts:306-308 | `obj[name]` is the value of the nearest data descriptor. A nearest accessor gives what its getter returns, or `undefined` when it has no getter. A member no object on the chain defines gives `undefined`. |
| Avm1Heap.FindNearest | src/avm1/lib/AVM1Utils.ts:149-150 | A descriptor the AVM1 lookup finds is the own descriptor of an object on the prototype chain within the bound, and no nearer object has one under that key. |
| Avm1Heap.FindComplete | src/avm1/lib/AVM1Utils.ts:149-150 | When the lookup finds nothing, no object on the chain within the bound has an own descriptor under that key. |
| Avm1Heap.Get | src/avm1/lib/AVM1Utils.ts:149-150 | `alGet` gives the value of the data descriptor the lookup finds, and `undefined` for a property the object neither has nor inherits. |
| Avm1Heap.SetOwn | src/avm1/lib/AVM1Utils.ts:310-314 | After `alSetOwnProperty`, the name looks up to exactly the new descriptor. The object gains only the normalised key, keeps all its other properties, prototype and kind, and every other object is untouched. |
| Broadcast.ListenerHandlersMembership | src/avm1/lib/AVM1Utils.ts:170-178 | A function is among the listeners' handlers exactly when some entry of the array contributes it. |
| Broadcast.ListenerHandlersAppend | src/avm1/lib/AVM1Utils.ts:170-178 | Listener handlers come in array order: the handlers of a concatenation are the concatenation of the handlers. |
| Broadcast.BroadcastNativeEvent | src/avm1/lib/AVM1Utils.ts:163-180 | On the heap as it stands when the broadcast starts: every call goes through `executeFunction` with the target as receiver and the given arguments, and always to an AVM1 function. When the target's own property is a function it is called first. There is at most one call per listener entry plus one. |
| Broadcast.BroadcastEvent | src/avm1/lib/AVM1Utils.ts:182-199 | The same as the native variant, on the heap at the start of the broadcast, with every call made through `alCall`. |
| Broadcast.BroadcastVariantsAgree | src/avm1/lib/AVM1Utils.ts:163-199 | The two broadcast variants call the same functions in the same order. They differ only in the calling convention. |
| Broadcast.BroadcastOrder | src/avm1/lib/AVM1Utils.ts:163-199 | On the heap at the start of the broadcast, the functions called are exactly the own handler, if it is a function, followed by the listeners' handlers in array order. |
| Broadcast.BroadcastImpliesAttach | src/avm1/lib/AVM1Utils.ts:148-199 | If a broadcast calls anything, `avm1HasEventProperty` holds. A handler that would be called is therefore one that keeps its host listener attached. |
| Broadcast.AttachRuleIgnoresCallability | src/avm1/lib/AVM1Utils.ts:158-160 | A listener entry whose property is not a function still keeps the host listener attached, while the broadcast calls nothing. |
| Broadcast.OnPressScenario | src/avm1/lib/AVM1Utils.ts:163-199 | On a concrete heap whose listener array holds a matching listener, a primitive and a listener without the property, both variants call the target's `onPress` and then the listener's. |
| SymbolEvents.AddEventListener | src/avm1/lib/AVM1Utils.ts:117-129 | Fails exactly when the listener table is gone. An installed slot is left alone. An empty slot gets one host listener under the handler's event name and one `onBind`, and afterwards that slot is installed. No other slot changes. |
| SymbolEvents.RemoveEventListener | src/avm1/lib/AVM1Utils.ts:131-139 | Mirror image: an empty slot is left alone. An installed slot fires `onUnbind`, its host listener is removed, and the slot is empty afterwards. No other slot changes. |
| SymbolEvents.UpdateEvent | src/avm1/lib/AVM1Utils.ts:109-115 | Afterwards the handler's slot is installed exactly when `avm1HasEventProperty` holds for its property name. Other slots keep their state. The trace gains only listener and bind/unbind effects. |
| SymbolEvents.AttachRuleBySlot | src/avm1/lib/AVM1Utils.ts:148-161 | Names with the same normalised key get the same answer from the attach rule. |
| SymbolEvents.UpdateEventIdempotent | src/avm1/lib/AVM1Utils.ts:109-139 | Updating a handler twice has the effect of updating it once, trace included. |
| SymbolEvents.AddRemoveRepeatable | src/avm1/lib/AVM1Utils.ts:117-139 | A second add, or a second remove, of the same handler changes nothing. |
| SymbolEvents.Step | src/avm1/lib/AVM1Utils.ts:75-80 | One `forEach` step of `bindEvents`. It enters the handler under its normalised name, and the slot ends up installed exactly when the attach rule holds. Other slots are unchanged. |
| SymbolEvents.StepEffects | src/avm1/lib/AVM1Utils.ts:76-79 | One step registers the façade as observer of exactly the normalised name, and adds no `removedFromStage` listener. |
| SymbolEvents.Sweep | src/avm1/lib/AVM1Utils.ts:75-80 | The handler map gains exactly the normalised names of the handlers, and every key still names a handler with that normalised name. |
| SymbolEvents.SweepInstalls | src/avm1/lib/AVM1Utils.ts:75-80 | After the loop, each handler's slot is installed exactly when the attach rule holds. Slots of names outside the table keep their state. |
| SymbolEvents.SweepObservers | src/avm1/lib/AVM1Utils.ts:75-80 | The loop registers the façade as observer once per handler, under its normalised name. |
| SymbolEvents.BindEvents | src/avm1/lib/AVM1Utils.ts:68-88 | Fresh tables whose map keys are exactly the handlers' normalised names. Each handler's slot is installed exactly when the attach rule holds, and no other slot is. With `autoUnbind`, a `removedFromStage` listener is the last effect. Without it, no such listener is added. |
| SymbolEvents.BindFooNotifyfoo | src/avm1/lib/AVM1Utils.ts:68-80 | In a case-insensitive context, a handler bound as "Foo" is the one a notification for "foo" re-evaluates. |
| SymbolEvents.UnbindStep | src/avm1/lib/AVM1Utils.ts:94-97 | One unbind step leaves the handler's slot empty and removes its host listener if it was installed. No other slot changes. |
| SymbolEvents.UnbindStepObservers | src/avm1/lib/AVM1Utils.ts:94-97 | One unbind step drops exactly one observer registration: the raw name as written, or the normalised name in the corrected form. |
| SymbolEvents.UnbindClearsSlots | src/avm1/lib/AVM1Utils.ts:94-97 | After the loop no handler's slot is installed. Each slot that was installed had its host listener removed. Slots outside the table are untouched. |
| SymbolEvents.UnbindObservers | src/avm1/lib/AVM1Utils.ts:94-97 | The loop subtracts one observer registration per handler, under the name the unregistration uses. |
| SymbolEvents.UnbindEvents | src/avm1/lib/AVM1Utils.ts:90-101 | As written: throws exactly when nothing was bound, or when the listener table is gone and there are handlers. Otherwise all three tables are dropped, and the trace only grows. |
| SymbolEvents.UnbindEventsIntended | src/avm1/lib/AVM1Utils.ts:90-101 | The same outcome, for the corrected unbind that unregisters under the normalised name. |
| SymbolEvents.BindThenUnbindObservers | src/avm1/lib/AVM1Utils.ts:68-101 | Binding then unbinding leaves the observer registry as before, plus the normalised names, minus the names unregistered. |
| SymbolEvents.BindThenUnbindIntendedRestoresObservers | src/avm1/lib/AVM1Utils.ts:68-101 | With the corrected unbind, binding then unbinding restores the observer registry exactly. |
| SymbolEvents.UnbindLeavesStaleObserver | src/avm1/lib/AVM1Utils.ts:76-78 | As written, take a case-insensitive context and a property name with an upper-case letter. Binding then unbinding leaves one extra observer registration under the lower-cased name, and a later notification for that name throws. |
| SymbolEvents.UpdateAllEvents | src/avm1/lib/AVM1Utils.ts:103-107 | Fails exactly when unbound, or when the listener table is gone and there are handlers. Otherwise each handler's slot is installed exactly when the attach rule holds, and other slots are untouched. |
| SymbolEvents.OnEventPropertyModified | src/avm1/lib/AVM1Utils.ts:141-145 | Succeeds exactly when the normalised name is in the handler map and listeners exist. The notified slot then reflects the attach rule, and no other slot changes. |
| SymbolEvents.NotifyIgnoresCase | src/avm1/lib/AVM1Utils.ts:141-145 | In a case-insensitive context, notifications for names that agree up to case have the same outcome. |
| SymbolEvents.NotifyTwice | src/avm1/lib/AVM1Utils.ts:141-145 | A repeated notification changes nothing further. |
| SymbolEvents.OnRemovedFromStage | src/avm1/lib/AVM1Utils.ts:83-86 | As written: the `removedFromStage` handler first removes itself, then runs the written unbind. The listener table is gone afterwards, and failure happens exactly when unbinding throws. |
| SymbolEvents.OnRemovedFromStageIntended | src/avm1/lib/AVM1Utils.ts:83-86 | The same handler over the corrected unbind, with the same outcome and trace prefix. |
| SymbolEvents.BindThenRemovedObservers | src/avm1/lib/AVM1Utils.ts:68-101 | As written, a clip bound with `autoUnbind` and then removed from the stage leaves the observer registry as before, plus the normalised names, minus the raw names the written unbind unregisters. |
| SymbolEvents.BindThenRemovedRestoresObservers | src/avm1/lib/AVM1Utils.ts:68-101 | With the corrected unbind, a clip bound with `autoUnbind` and then removed from the stage leaves the observer registry as it found it. |
| TargetPath.GetTarget | src/avm1/lib/AVM1Utils.ts:216-227 | A root is "/". Any other clip gets its names, from just below the nearest root ancestor down to itself, each preceded by "/". A missing display object, or a chain without a root ancestor, throws. |
| TargetPath.SplitSlashed | src/avm1/lib/AVM1Utils.ts:221-226 | A path built this way splits back into the names it was built from, provided no name contains "/". |
| TargetPath.TargetPathInjective | src/avm1/lib/AVM1Utils.ts:221-226 | For slash-free names, two clips get the same target path only when their name chains agree. |
| Facades.SymbolPrototypeNearest | src/avm1/lib/AVM1Utils.ts:232-236 | A successful prototype walk ends at the nearest object of the chain from `ctor.prototype`, within the bound, that can initialise a symbol instance. |
| Facades.SymbolPrototypeComplete | src/avm1/lib/AVM1Utils.ts:232-236 | A failed walk started from a non-object, or met no object within the bound that can initialise a symbol instance. |
| Facades.SymbolPrototypeFuel | src/avm1/lib/AVM1Utils.ts:233-235 | Once the walk succeeds, allowing it more steps gives the same answer, so the bound does not change outcomes. |
| Facades.StateAtConstructorCall | src/avm1/lib/AVM1Utils.ts:237-241 | By the time the AVM1 constructor is called, the façade exists, is fresh, and is already cached on its host. Only that host and that object change, and heap coherence is kept. |
| Facades.CreateNativeObject | src/avm1/lib/AVM1Utils.ts:230-244 | Succeeds exactly when the prototype walk does. The result is a fresh symbol-base façade with the constructor as its `constructor`, linked both ways with its host. The constructor is called on it, and existing objects are untouched. |
| Facades.GetAvm1Object | src/avm1/lib/AVM1Utils.ts:246-271 | `null` in gives `null` out. A cached façade is returned without change. A movie clip, button or text field gets a new façade from the constructor its class selects. A BitmapData with none of those classes throws, as written. Any other host gives `null` and changes nothing, and a `null` result comes only from those cases. Heap coherence is kept, and a façade returned is an AVM1 instance of that host. |
| Facades.BitmapDataAsWrittenThrows | src/avm1/lib/AVM1Utils.ts:266-268 | As written, looking up a BitmapData that has no façade throws, because `new` is applied to an instance. |
| Facades.GetAvm1ObjectIntended | src/avm1/lib/AVM1Utils.ts:246-271 | Corrected: every branch is the written one, except that a BitmapData gets a freshly allocated façade, not cached, instead of an exception. |
| Facades.BitmapDataIntendedFresh | src/avm1/lib/AVM1Utils.ts:266-268 | Corrected, a BitmapData's façade is fresh and stands for that BitmapData. The cache, the trace and every existing object are unchanged, and heap coherence is kept. |
| Facades.GetTwiceSame | src/avm1/lib/AVM1Utils.ts:250-252 | Asking twice gives the same façade and changes nothing the second time. |
| Facades.ReentrantLookup | src/avm1/lib/AVM1Utils.ts:241-252 | Looking a host up from inside its AVM1 constructor finds the façade being built. |
| Facades.MovieClipWins | src/avm1/lib/AVM1Utils.ts:254-259 | A movie clip takes its symbol class, or else `MovieClip`, whatever other classes it also belongs to. |
| Facades.DistinctHostsDistinctFacades | src/avm1/lib/AVM1Utils.ts:246-271 | Two different hosts never share a façade. |
| NativeWrap.WrapFunction | src/avm1/lib/AVM1Utils.ts:274-287 | `null`/`undefined` becomes `undefined` with no allocation. A function becomes one fresh AVM1 native function wrapping it, with the prefixing mode recorded. |
| NativeWrap.PropertyMappingNames | src/avm1/lib/AVM1Utils.ts:303-310 | For `x…#`, the AVM1 key is the name without `#`, and the accessors are `get`/`set` followed by the upper-cased first letter and the middle. |
| NativeWrap.InstallMapping | src/avm1/lib/AVM1Utils.ts:303-315 | A property mapping `x#` installs under `x` an accessor with the accessor flags whose getter and setter wrap the host's `getX` and `setX`. The other properties of the object and every other object stay as they were. |
| NativeWrap.InstallData | src/avm1/lib/AVM1Utils.ts:318-334 | A plain member installs a data property with the data flags holding the wrapped function, or the host value itself. The other properties and objects stay as they were. |
| NativeWrap.WrapMember | src/avm1/lib/AVM1Utils.ts:302-335 | One member adds exactly its normalised key, unless it is skipped, and that key holds the descriptor the member's kind calls for. A member is skipped when it is missing or is a host accessor, and then nothing changes. Every other property and object is untouched. |
| NativeWrap.WrapEach | src/avm1/lib/AVM1Utils.ts:302-335 | The wrap object's keys become the old keys plus exactly the keys of the non-skipped members. Properties under other keys keep their descriptors, and no other object changes. |
| NativeWrap.WrapEachInstalls | src/avm1/lib/AVM1Utils.ts:302-335 | Each installed key holds the descriptor that the last non-skipped member with that key installs, so a later member overwrites an earlier one. |
| NativeWrap.WrapMembers | src/avm1/lib/AVM1Utils.ts:299-335 | A missing member list changes nothing. Otherwise the keys grow by exactly the non-skipped members' keys, and each holds what its last member installs. Every other property and object is left as it was. |
| NativeWrap.HostAccessorSkipped | src/avm1/lib/AVM1Utils.ts:322-325 | A non-mapping member that the host defines as a getter or setter is skipped without effect. |
| NativeWrap.WrapPlayScenario | src/avm1/lib/AVM1Utils.ts:318-334 | An inherited host method `play` becomes a fresh native function stored under "play" with the data flags. |
| ClipEvents.EventOrder | src/avm1/lib/AVM1Utils.ts:438-458 | Every clip event has one position in the flag enumeration, and that position maps back to the event. |
| ClipEvents.BitsIncrease | src/avm1/lib/AVM1Utils.ts:400 | The events' flag values increase along the visiting order. |
| ClipEvents.IsSetMeansBit | src/avm1/lib/AVM1Utils.ts:402 | An event counts as set exactly when its bit is set in the flags, which is the source's `flags & eventFlag` test. |
| ClipEvents.SetEventsFlags | src/avm1/lib/AVM1Utils.ts:400-404 | The loop over `ClipEventMappings` visits exactly the events whose bit is set. |
| ClipEvents.StageEvents | src/avm1/lib/AVM1Utils.ts:406 | An event is routed to the stage exactly when it is MouseMove, MouseDown, MouseUp or Press, because Press shares the `mouseDown` type. |
| ClipEvents.WireEventFacts | src/avm1/lib/AVM1Utils.ts:405-420 | One set event adds a stage listener for its mapped type if that type is a stage type, and a host listener otherwise. It sets button mode exactly for Release, ReleaseOutside, RollOver and RollOut. It records a pending stage entry exactly for a stage listener it added. |
| ClipEvents.WireFlags | src/avm1/lib/AVM1Utils.ts:400-421 | One clip action's bit loop only adds listeners for its own handler and sets button mode on its own host. |
| ClipEvents.WireFlagsStage | src/avm1/lib/AVM1Utils.ts:406-408 | The stage gets a listener for a type exactly when some set event maps to that stage type. |
| ClipEvents.WireFlagsHost | src/avm1/lib/AVM1Utils.ts:409-419 | The host gets a listener for a type exactly when some set non-stage event maps to it. |
| ClipEvents.WireFlagsButton | src/avm1/lib/AVM1Utils.ts:410-418 | Button mode is set exactly when some set event is a button event. |
| ClipEvents.WireFlagsPending | src/avm1/lib/AVM1Utils.ts:406-408 | The entries pushed on `stageListeners` are exactly the stage listeners added. |
| ClipEvents.NatToStringInjective | src/avm1/lib/AVM1Utils.ts:391 | Different numbers render as different decimal strings. |
| ClipEvents.KeyTextInjective | src/avm1/lib/AVM1Utils.ts:391 | The unit name `'s' + symbolId + 'e' + j` determines both numbers, so distinct clip actions get distinct names. |
| ClipEvents.Compile | src/avm1/lib/AVM1Utils.ts:389-396 | Raw actions are compiled under the key (symbol, index), cached in `compiled`, and the raw field is cleared. Already compiled actions are reused without a compile. The flags never change. |
| ClipEvents.WireActions | src/avm1/lib/AVM1Utils.ts:386-397 | After the loop over clip actions, every action of the tag is as compiling left it. |
| ClipEvents.WirePrefixCompiles | src/avm1/lib/AVM1Utils.ts:389-393 | Clip action j is compiled exactly when it still held raw actions. |
| ClipEvents.WirePrefixRegistrations | src/avm1/lib/AVM1Utils.ts:398-421 | The listeners with clip action j's handler are exactly those that action's own bit loop added. |
| ClipEvents.WirePrefixButtonMode | src/avm1/lib/AVM1Utils.ts:410-418 | Button mode is set exactly when some clip action's bit loop set it. |
| ClipEvents.WirePrefixStage | src/avm1/lib/AVM1Utils.ts:384-407 | `stageListeners` holds exactly the entries the clip actions pushed. |
| ClipEvents.WirePrefixKinds | src/avm1/lib/AVM1Utils.ts:386-421 | The loop only compiles, sets button mode and adds clip-handler listeners. |
| ClipEvents.ClipActions | src/avm1/lib/AVM1Utils.ts:380-429 | A tag without clip actions does nothing. Otherwise the tag comes back with every clip action compiled, its flags unchanged, and no raw actions left. |
| ClipEvents.SetVariable | src/avm1/lib/AVM1Utils.ts:376-378 | A missing or empty variable name does nothing. Otherwise the write is recorded as an effect on the façade, with the heap left as it is, and a `null` façade throws. |
| ClipEvents.InitializeAvm1Object | src/avm1/lib/AVM1Utils.ts:370-430 | Fails exactly when the façade lookup fails, or when a variable name is given with no façade. Otherwise the trace is the lookup's, then the variable, then the clip-action effects. |
| ClipEvents.ClipActionRegistrations | src/avm1/lib/AVM1Utils.ts:400-420 | Clip action j's handler listens on the host for a type exactly when the type is not a stage type and some set event maps to it. It listens on the stage exactly when the type is a stage type and some set event maps to it. |
| ClipEvents.ClipActionListeners | src/avm1/lib/AVM1Utils.ts:398-421 | Within the whole placement, the listeners of clip action j's handler are exactly those of its own bit loop. |
| ClipEvents.ClipActionButtonMode | src/avm1/lib/AVM1Utils.ts:410-418 | Placement sets button mode exactly when some clip action has a button event set. |
| ClipEvents.ClipActionTeardown | src/avm1/lib/AVM1Utils.ts:423-429 | A teardown listener is added exactly when some clip action has an event set that maps to a stage type. |
| ClipEvents.ClipActionPending | src/avm1/lib/AVM1Utils.ts:406-408 | The teardown's pending entries are exactly the stage listeners the placement added for its clip handlers. |
| ClipEvents.CompileOnce | src/avm1/lib/AVM1Utils.ts:389-396 | Placing the same tag again compiles nothing, leaves the tag as it is, and reuses the compiled actions of the first placement. |
| ClipEvents.NoCompiles | src/avm1/lib/AVM1Utils.ts:394-395 | With every action already compiled, the loop compiles nothing. |
| ClipEvents.RemoveStageListenersAsWritten | src/avm1/lib/AVM1Utils.ts:425-427 | As written, the i-th removal targets the stage, under the i-th entry's event name, with no listener. |
| ClipEvents.RemoveStageListeners | src/avm1/lib/AVM1Utils.ts:425-427 | Corrected: the i-th removal targets the stage, under the i-th entry's event name, with that entry's handler. |
| ClipEvents.RemoveStageListenersClears | src/avm1/lib/AVM1Utils.ts:424-428 | The corrected teardown removes exactly the pending stage registrations and nothing else. |
| ClipEvents.RemoveStageListenersAsWrittenKeeps | src/avm1/lib/AVM1Utils.ts:426 | As written, the teardown removes no real listener at all. |
| ClipEvents.ClipActionsRemoveNothing | src/avm1/lib/AVM1Utils.ts:386-429 | Placement only adds. It never removes a listener. |
| ClipEvents.TeardownAsWrittenKeepsStageListeners | src/avm1/lib/AVM1Utils.ts:423-429 | As written, each stage listener added at placement is still registered after the teardown. |
| ClipEvents.TeardownRemovesStageListeners | src/avm1/lib/AVM1Utils.ts:423-429 | Corrected, no stage listener added at placement survives the teardown. |
| ClipEvents.MouseMoveHasPendingStageListener | src/avm1/lib/AVM1Utils.ts:406-408 | A MouseMove clip action listens on the stage and leaves a pending teardown entry. |
| ClipEvents.PressListensOnStage | src/avm1/lib/AVM1Utils.ts:450 | A clip action with Press listens for `mouseDown` on the stage, not on the clip. |
| ClipEvents.RollOverSetsButtonMode | src/avm1/lib/AVM1Utils.ts:413-417 | A RollOver/RollOut clip action puts the clip in button mode. |
| ClipEvents.ClipListensFor | src/avm1/lib/AVM1Utils.ts:409-419 | Every set event with a non-stage type gets a host listener for the handler of its clip action. |
| ClipEvents.RollOverListens | src/avm1/lib/AVM1Utils.ts:453 | RollOver listens for `mouseOver` on the clip. |
| ClipEvents.RollOutListens | src/avm1/lib/AVM1Utils.ts:454 | RollOut listens for `mouseOut` on the clip. |

## Left out

- `wrapAVM1NativeClass` (AVM1Utils.ts 338-367) builds a class from `wrapAVM1NativeMembers` and the runtime's property definitions. It is outside the modelled core.
- `resolveTarget`, `resolveMovieClip` and `resolveLevel` (202-214) only forward to the context, so they have no logic of their own.
- The host side is not modelled beyond the trace. This covers:
  - dispatching events;
  - `executeFunction`, `alCall` and `executeActions`;
  - the listener closure `avm1EventHandler` with its `argsConverter`;
  - `clipEventHandler` (432-435).

  Each call is recorded as an effect or a call record, and nothing is evaluated.
- Broadcast.BroadcastNativeEvent: like `Broadcast.BroadcastEvent` and `Broadcast.BroadcastOrder`, it computes every call from the heap at the start of the broadcast. The source reads `_listeners` only after the own handler has run, walks the live array with `forEach`, and reads each listener's property just before calling it. A handler that changes `_listeners` or a listener's property is therefore not reflected. One example is a listener removing itself, after which `forEach` skips the next entry. Another is the own handler appending a listener, which allows more calls than the stated bound. Evaluating handlers is outside the model.
- Broadcast.BroadcastEvent: computes its calls from the heap at the start of the broadcast, with the same consequences as `Broadcast.BroadcastNativeEvent`.
- Broadcast.BroadcastOrder: the order "own handler, then listeners in array order" is stated for a broadcast whose handlers leave `_listeners` and the listeners' properties unchanged.
- AVM2 type tests (`axIsType`) are replaced by a set of class tags on each host object.
- The `Debug.assert` and `Debug.warning` machinery is left out, because release builds compile it away. The Data, DragOver, DragOut and KeyPress entries of `ClipEventMappings` are `Unimplemented` event names: a host listener is added under them and nothing else happens.
- The AVM1 constructor's script is not evaluated. `createAVM1NativeObject` records the call as an effect.
- Avm1Heap.Get: an accessor property reads as `undefined`, because calling its getter would evaluate script.
- Names.Normalize: only ASCII letters are case-folded. JavaScript's `toLowerCase` folds all of Unicode.
- Facades.SymbolPrototypeNearest: the prototype walk is bounded by the heap's allocation counter. `SymbolPrototypeFuel` shows that a larger bound gives the same answer.
- HostRealm.FindDescriptorNearest: the host prototype walk is bounded by the realm's allocation counter. A longer chain reads as a missing member.
- Avm1Heap.FindNearest: the AVM1 prototype walk is bounded the same way.
- NativeWrap.WrapFunction: the wrapper's own prototype and `length` are not modelled. The prefixing adapter is recorded only as the `prefixed` mode on the native function; the call that puts the context before the caller's arguments is not modelled.
- NativeWrap.GetterName: the first letter is upper-cased for ASCII only. JavaScript's `toUpperCase` also maps other letters, some to several characters ("ß" becomes "SS").
- NativeWrap.InstallData: a host value that is not `undefined`, `null` or a primitive is kept as an opaque host value, not converted.
- ClipEvents.SetVariable: `alPut('variable', name)` is recorded as a `VariableSet` effect and the heap is left unchanged. What `alPut` stores, or which setter it calls, is decided in AVM1Object, which is not part of this model.
- Facades.GetAvm1ObjectIntended: the corrected BitmapData façade is a plain object. The AVM1 BitmapData class it should belong to is not part of this model.
- ClipEvents.Compile: the compiled action block is a (symbol id, index) key plus the raw bytes, not the unit name string. `KeyTextInjective` shows that the string `'s' + symbolId + 'e' + j` carries the same information.
- ClipEvents.EventAt: the `AVM1ClipEvents` values are taken as `1 << i` in the order listed above, because the SWF parser that defines them is not part of this model.

## Findings

| source | as written | input that shows it | evidently intended | confidence | as-written member | corrected member |
|---|---|---|---|---|---|---|
| src/avm1/lib/AVM1Utils.ts:95 | `unbindEvents` unregisters the observer under the raw `event.propertyName`, but `bindEvents` registered it under the normalised name (line 78). | A case-insensitive context and a handler with property name "onPress". It is registered as "onpress", and the unregistration of "onPress" matches nothing. The façade stays registered, and the next write of `onpress` notifies a façade whose tables are `null`, which throws. | Unregister under `normalizeEventName(context, event.propertyName)`. | not executed | SymbolEvents.UnbindLeavesStaleObserver | SymbolEvents.BindThenRemovedRestoresObservers |
| src/avm1/lib/AVM1Utils.ts:426 | The teardown removes `stageListeners[i].fn`, but the entries pushed at line 407 have `eventName` and `handler` and no `fn`. So it passes `undefined`. | A PlaceObject tag with one clip action whose flags set MouseMove. A `mouseMove` listener is added to the stage. When the clip leaves the stage, `removeEventListener('mouseMove', undefined)` removes nothing, and the handler stays on the stage. | Pass `stageListeners[i].handler`. | not executed | ClipEvents.RemoveStageListenersAsWrittenKeeps | ClipEvents.TeardownRemovesStageListeners |
| src/avm1/lib/AVM1Utils.ts:267 | `getAVM1Object` answers a BitmapData with `new as3Object`. `as3Object` is an instance, not a constructor, so `new` throws a TypeError. | A BitmapData host object with no cached façade. `BitmapData` is tested only after `MovieClip`, `SimpleButton` and `TextField`, none of which match, so the branch is reached and throws. | Return an AVM1 object standing for the BitmapData. | not executed | Facades.BitmapDataAsWrittenThrows | Facades.BitmapDataIntendedFresh |

Each finding keeps both forms side by side.

- `SymbolEvents.UnbindEvents` and `SymbolEvents.OnRemovedFromStage` are the
  code as written. `SymbolEvents.UnbindEventsIntended` and
  `SymbolEvents.OnRemovedFromStageIntended` unregister under the normalised
  name. `SymbolEvents.BindThenRemovedObservers` gives the registry as
  written, and `SymbolEvents.BindThenRemovedRestoresObservers` shows that
  the corrected form restores it.
- `ClipEvents.RemoveStageListenersAsWritten` is the teardown as written, and
  `ClipEvents.RemoveStageListeners` is the corrected one.
  `ClipEvents.TeardownAsWrittenKeepsStageListeners` shows the consequence.
- `Facades.GetAvm1Object` throws for a BitmapData as written.
  `Facades.GetAvm1ObjectIntended` allocates a façade instead.
