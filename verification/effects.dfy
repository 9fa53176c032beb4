/** Host-side effects of the bridge, recorded in an append-only trace.

    The source calls out to the host (`addEventListener`,
    `removeEventListener`, `buttonMode = true`), to the context
    (`registerEventPropertyObserver`, `createActionsData`), and to handler
    hooks (`onBind`, `onUnbind`). The model does not perform those calls; it
    appends one `Effect` per call, in call order. Two replays give the trace
    a meaning: the host's listener registrations, and the context's observer
    registry.
 */
module Effects {
  import opened Wrappers
  import opened Avm1Heap

  /** Where a listener is registered: a display object, or the stage. */
  datatype Target = HostTarget(host: HostId) | Stage

  /** An event type passed to the host. Four clip-event table entries hold a
      warning object instead of a string; `Unimplemented` names such an entry. */
  datatype EventName = Named(text: string) | Unimplemented(entry: string)

  /** `AVM1EventHandler`: the AVM1 property that activates the handler, the
      host event it listens to, and an optional argument converter. */
  datatype EventHandler = EventHandler(propertyName: string, eventName: string, argsConverter: Option<Code>)

  /** The name an actions unit is compiled under, `'s' + symbolId + 'e' + j`,
      kept as its two numbers; its text is `ClipEvents.KeyText`. */
  datatype UnitKey = UnitKey(symbolId: nat, entry: nat)

  /** A compiled actions unit, as `createActionsData` returns it. */
  datatype ActionsData = ActionsData(key: UnitKey, bytes: seq<nat>)

  /** The listener functions the bridge hands to the host, by what they close over. */
  datatype Listener =
    /** The `avm1EventHandler` closure of `_addEventListener`. */
    | EventListener(facade: ObjId, property: string)
    /** The `removedHandler` closure of `bindEvents`. */
    | AutoUnbind(facade: ObjId)
    /** `clipEventHandler` bound to an actions unit and a receiver façade. */
    | ClipHandler(host: HostId, entry: nat, actions: Option<ActionsData>, receiver: Option<ObjId>)
    /** The `removedFromStage` closure of `initializeAVM1Object`. */
    | StageTeardown(host: HostId, pending: seq<StageListener>)
    /** `undefined` passed where a listener function was expected. */
    | NoListener

  /** An entry of `stageListeners`: `{eventName, handler}`. */
  datatype StageListener = StageListener(eventName: string, handler: Listener)

  datatype Effect =
    | AddListener(target: Target, event: EventName, listener: Listener)
    | RemoveListener(target: Target, event: EventName, listener: Listener)
    /** `event.onBind(facade)` / `event.onUnbind(facade)`. */
    | Bound(handler: EventHandler, facade: ObjId)
    | Unbound(handler: EventHandler, facade: ObjId)
    /** `context.registerEventPropertyObserver` / `unregisterEventPropertyObserver`. */
    | Observe(name: string, facade: ObjId)
    | Unobserve(name: string, facade: ObjId)
    /** `ctor.alCall(facade)`. */
    | ConstructorCalled(ctor: ObjId, facade: ObjId)
    /** `instanceAVM1.alPut('variable', name)`. */
    | VariableSet(facade: ObjId, name: string)
    /** `as3Object.buttonMode = true`. */
    | ButtonModeSet(host: HostId)
    /** `createActionsData(bytes, key)`. */
    | ActionsCompiled(key: UnitKey)

  datatype Registration = Registration(target: Target, event: EventName, listener: Listener)

  /** The host's registration set after one effect. Registering twice is a
      no-op and removing an absent registration is a no-op, as for the host's
      event dispatcher (which is not part of this model). */
  function ApplyRegistration(regs: set<Registration>, e: Effect): set<Registration> {
    match e
    case AddListener(t, n, l) => regs + {Registration(t, n, l)}
    case RemoveListener(t, n, l) => regs - {Registration(t, n, l)}
    case _ => regs
  }

  function Replay(regs: set<Registration>, trace: seq<Effect>): set<Registration>
    decreases |trace|
  {
    if trace == [] then regs else Replay(ApplyRegistration(regs, trace[0]), trace[1..])
  }

  /** The context's observer registry for one façade after one effect: a
      registration adds one occurrence of the name, an unregistration removes
      one occurrence if there is any. */
  function ApplyObserver(names: multiset<string>, facade: ObjId, e: Effect): multiset<string> {
    match e
    case Observe(n, f) => if f == facade then names + multiset{n} else names
    case Unobserve(n, f) => if f == facade then names - multiset{n} else names
    case _ => names
  }

  function Observed(names: multiset<string>, facade: ObjId, trace: seq<Effect>): multiset<string>
    decreases |trace|
  {
    if trace == [] then names else Observed(ApplyObserver(names, facade, trace[0]), facade, trace[1..])
  }

  /** Replaying a trace in two pieces is replaying it whole. */
  lemma {:induction false} ReplayAppend(regs: set<Registration>, a: seq<Effect>, b: seq<Effect>)
    ensures Replay(regs, a + b) == Replay(Replay(regs, a), b)
    decreases |a|
  {
    if a != [] {
      assert (a + b)[1..] == a[1..] + b;
      ReplayAppend(ApplyRegistration(regs, a[0]), a[1..], b);
    } else {
      assert a + b == b;
    }
  }

  lemma {:induction false} ObservedAppend(names: multiset<string>, facade: ObjId, a: seq<Effect>, b: seq<Effect>)
    ensures Observed(names, facade, a + b) == Observed(Observed(names, facade, a), facade, b)
    decreases |a|
  {
    if a != [] {
      assert (a + b)[1..] == a[1..] + b;
      ObservedAppend(ApplyObserver(names, facade, a[0]), facade, a[1..], b);
    } else {
      assert a + b == b;
    }
  }

  /** The observer registry after one more effect. */
  lemma ObservedSnoc(names: multiset<string>, facade: ObjId, t: seq<Effect>, e: Effect)
    ensures Observed(names, facade, t + [e]) == ApplyObserver(Observed(names, facade, t), facade, e)
  {
    ObservedAppend(names, facade, t, [e]);
    assert [e][1..] == [];
  }

  /** A trace that removes nothing keeps every registration it starts with
      and every one it adds. */
  lemma {:induction false} ReplayGrows(regs: set<Registration>, t: seq<Effect>)
    requires forall i :: 0 <= i < |t| ==> !t[i].RemoveListener?
    ensures regs <= Replay(regs, t)
    ensures forall i :: 0 <= i < |t| && t[i].AddListener? ==>
      Registration(t[i].target, t[i].event, t[i].listener) in Replay(regs, t)
    decreases |t|
  {
    if t != [] {
      ReplayGrows(ApplyRegistration(regs, t[0]), t[1..]);
      forall i | 1 <= i < |t| && t[i].AddListener?
        ensures Registration(t[i].target, t[i].event, t[i].listener) in Replay(regs, t)
      {
        assert t[1..][i - 1] == t[i];
      }
    }
  }
}
