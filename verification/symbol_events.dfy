/** The event-binding state machine of `AVM1SymbolBase` (AVM1Utils.ts lines
    41-146): one listener slot per normalised property name, filled by
    `_addEventListener`, emptied by `_removeEventListener`, and chosen
    between by `_updateEvent` using the attach rule.

    The façade's AVM1 properties are read from a heap that stays fixed for
    the duration of each operation (no script runs in between); host calls,
    hook firings and observer (un)registrations are appended to the trace.
 */
module SymbolEvents {
  import opened Wrappers
  import opened Names
  import opened Avm1Heap
  import opened Effects
  import opened Broadcast

  /** The event bookkeeping of one façade. `None` stands for the `undefined`
      (before `bindEvents`) or `null` (after `unbindEvents`) the source leaves
      in `_events`, `_eventsMap` and `_eventsListeners`. A listener slot holds
      `true` while a host listener is installed for it. */
  datatype Symbol = Symbol(
    facade: ObjId,
    host: HostId,
    caseSensitive: bool,
    events: Option<seq<EventHandler>>,
    eventsMap: Option<map<string, EventHandler>>,
    listeners: Option<map<string, bool>>,
    trace: seq<Effect>)

  /** The slot key of a handler: its normalised property name. */
  function SlotOf(s: Symbol, e: EventHandler): string {
    Normalize(s.caseSensitive, e.propertyName)
  }

  function SlotsOf(caseSensitive: bool, events: seq<EventHandler>): set<string> {
    set e | e in events :: Normalize(caseSensitive, e.propertyName)
  }

  /** The normalised names of `events`, in order. */
  function SlotSeq(caseSensitive: bool, events: seq<EventHandler>): (r: seq<string>)
    ensures |r| == |events|
    ensures forall i :: 0 <= i < |r| ==> r[i] == Normalize(caseSensitive, events[i].propertyName)
  {
    seq(|events|, i requires 0 <= i < |events| => Normalize(caseSensitive, events[i].propertyName))
  }

  /** The raw property names of `events`, in order. */
  function NameSeq(events: seq<EventHandler>): (r: seq<string>)
    ensures |r| == |events|
    ensures forall i :: 0 <= i < |r| ==> r[i] == events[i].propertyName
  {
    seq(|events|, i requires 0 <= i < |events| => events[i].propertyName)
  }

  predicate Installed(s: Symbol, p: string) {
    s.listeners.Some? && p in s.listeners.value && s.listeners.value[p]
  }

  /** Everything but the listener slots and the trace is the same. */
  predicate SameBinding(a: Symbol, b: Symbol) {
    a.facade == b.facade && a.host == b.host && a.caseSensitive == b.caseSensitive
    && a.events == b.events && a.eventsMap == b.eventsMap
    && (a.listeners.Some? <==> b.listeners.Some?)
  }

  /** Every entry of `_eventsMap` sits under its handler's normalised name. */
  predicate MapCoherent(s: Symbol) {
    s.eventsMap.Some? ==>
      forall k :: k in s.eventsMap.value ==> Normalize(s.caseSensitive, s.eventsMap.value[k].propertyName) == k
  }

  /** An effect of the slot machinery itself: a host listener of a slot
      added or removed, or a hook fired. */
  predicate IsSlotEffect(e: Effect) {
    match e
    case AddListener(_, _, l) => l.EventListener?
    case RemoveListener(_, _, l) => l.EventListener?
    case Bound(_, _) => true
    case Unbound(_, _) => true
    case _ => false
  }

  predicate SlotEffects(t: seq<Effect>) {
    forall i :: 0 <= i < |t| ==> IsSlotEffect(t[i])
  }

  /** The effect adds a `removedFromStage` unbinding listener. */
  predicate AddsAutoUnbind(e: Effect) {
    e.AddListener? && e.listener.AutoUnbind?
  }

  /** The host call `as3Object.addEventListener(event.eventName, listener)`
      for the slot of `e`. */
  function ListenEffect(s: Symbol, e: EventHandler): Effect {
    AddListener(HostTarget(s.host), Named(e.eventName), EventListener(s.facade, SlotOf(s, e)))
  }

  function UnlistenEffect(s: Symbol, e: EventHandler): Effect {
    RemoveListener(HostTarget(s.host), Named(e.eventName), EventListener(s.facade, SlotOf(s, e)))
  }

  /** `_addEventListener`: an empty slot gets a host listener, then `onBind`
      fires; a full slot is left alone. Throws when the slots are missing. */
  function AddEventListener(s: Symbol, e: EventHandler): (r: Result<Symbol>)
    ensures r.Ok? <==> s.listeners.Some?
    ensures r.Ok? ==> SameBinding(s, r.value) && Installed(r.value, SlotOf(s, e))
    ensures r.Ok? ==> forall q :: q != SlotOf(s, e) ==> (Installed(r.value, q) <==> Installed(s, q))
    ensures r.Ok? && Installed(s, SlotOf(s, e)) ==> r.value == s
    ensures r.Ok? && !Installed(s, SlotOf(s, e)) ==>
      r.value.trace == s.trace + [ListenEffect(s, e), Bound(e, s.facade)]
  {
    if s.listeners.None? then Err(NullReference)
    else if Installed(s, SlotOf(s, e)) then Ok(s)
    else Ok(s.(listeners := Some(s.listeners.value[SlotOf(s, e) := true]),
               trace := s.trace + [ListenEffect(s, e), Bound(e, s.facade)]))
  }

  /** `_removeEventListener`: a full slot fires `onUnbind`, loses its host
      listener and is emptied; an empty slot is left alone. */
  function RemoveEventListener(s: Symbol, e: EventHandler): (r: Result<Symbol>)
    ensures r.Ok? <==> s.listeners.Some?
    ensures r.Ok? ==> SameBinding(s, r.value) && !Installed(r.value, SlotOf(s, e))
    ensures r.Ok? ==> forall q :: q != SlotOf(s, e) ==> (Installed(r.value, q) <==> Installed(s, q))
    ensures r.Ok? && !Installed(s, SlotOf(s, e)) ==> r.value == s
    ensures r.Ok? && Installed(s, SlotOf(s, e)) ==>
      r.value.trace == s.trace + [Unbound(e, s.facade), UnlistenEffect(s, e)]
  {
    if s.listeners.None? then Err(NullReference)
    else if !Installed(s, SlotOf(s, e)) then Ok(s)
    else Ok(s.(listeners := Some(s.listeners.value[SlotOf(s, e) := false]),
               trace := s.trace + [Unbound(e, s.facade), UnlistenEffect(s, e)]))
  }

  /** `_updateEvent`: afterwards the slot of `e` is full exactly when the
      attach rule holds for `e`'s property on the façade. */
  function UpdateEvent(h: Heap, s: Symbol, e: EventHandler): (r: Result<Symbol>)
    ensures r.Ok? <==> s.listeners.Some?
    ensures r.Ok? ==> SameBinding(s, r.value)
    ensures r.Ok? ==> (Installed(r.value, SlotOf(s, e)) <==> HasEventProperty(h, s.caseSensitive, s.facade, e.propertyName))
    ensures r.Ok? ==> forall q :: q != SlotOf(s, e) ==> (Installed(r.value, q) <==> Installed(s, q))
    ensures r.Ok? ==> s.trace <= r.value.trace && SlotEffects(r.value.trace[|s.trace|..])
  {
    if HasEventProperty(h, s.caseSensitive, s.facade, e.propertyName) then AddEventListener(s, e)
    else RemoveEventListener(s, e)
  }

  /** The attach rule only sees the normalised name. */
  lemma AttachRuleBySlot(h: Heap, caseSensitive: bool, facade: ObjId, a: string, b: string)
    requires Normalize(caseSensitive, a) == Normalize(caseSensitive, b)
    ensures HasEventProperty(h, caseSensitive, facade, a) == HasEventProperty(h, caseSensitive, facade, b)
  {
    assert Lookup(h, caseSensitive, facade, a) == Lookup(h, caseSensitive, facade, b);
    match ArrayItems(h, Get(h, caseSensitive, facade, "_listeners"))
    case None =>
    case Some(items) =>
      forall i | 0 <= i < |items| && IsObject(h, items[i])
        ensures HasProperty(h, caseSensitive, items[i].id, a) == HasProperty(h, caseSensitive, items[i].id, b)
      {
      }
  }

  /** Running `_updateEvent` twice on an unchanged heap does nothing the
      second time: no second host listener, no second hook, no trace entry. */
  lemma UpdateEventIdempotent(h: Heap, s: Symbol, e: EventHandler)
    requires s.listeners.Some?
    ensures UpdateEvent(h, UpdateEvent(h, s, e).value, e) == UpdateEvent(h, s, e)
  {
  }

  /** Repeating an add or a remove changes nothing and adds nothing to the trace. */
  lemma AddRemoveRepeatable(s: Symbol, e: EventHandler)
    requires s.listeners.Some?
    ensures AddEventListener(AddEventListener(s, e).value, e) == AddEventListener(s, e)
    ensures RemoveEventListener(RemoveEventListener(s, e).value, e) == RemoveEventListener(s, e)
  {
  }

  /** Enter `e` in `_eventsMap` under its normalised name and register the
      façade as an observer of that name. */
  function Register(s: Symbol, e: EventHandler): Symbol
    requires s.eventsMap.Some?
  {
    s.(eventsMap := Some(s.eventsMap.value[SlotOf(s, e) := e]), trace := s.trace + [Observe(SlotOf(s, e), s.facade)])
  }

  /** The loop body of `bindEvents` (with `register`) or of `updateAllEvents`
      (without). */
  function Step(h: Heap, s: Symbol, e: EventHandler, register: bool): (r: Symbol)
    requires s.listeners.Some?
    requires register ==> s.eventsMap.Some?
    ensures r.facade == s.facade && r.host == s.host && r.caseSensitive == s.caseSensitive
    ensures r.events == s.events && r.listeners.Some?
    ensures register ==> r.eventsMap == Some(s.eventsMap.value[SlotOf(s, e) := e])
    ensures !register ==> r.eventsMap == s.eventsMap
    ensures Installed(r, SlotOf(s, e)) <==> HasEventProperty(h, s.caseSensitive, s.facade, e.propertyName)
    ensures forall q :: q != SlotOf(s, e) ==> (Installed(r, q) <==> Installed(s, q))
    ensures s.trace <= r.trace
  {
    UpdateEvent(h, if register then Register(s, e) else s, e).value
  }

  /** One step registers one observer, under the normalised name, when
      `register` is set, and none otherwise; it adds no `removedFromStage`
      listener. */
  lemma StepEffects(h: Heap, s: Symbol, e: EventHandler, register: bool, names: multiset<string>)
    requires s.listeners.Some?
    requires register ==> s.eventsMap.Some?
    ensures Observed(names, s.facade, Step(h, s, e, register).trace)
      == Observed(names, s.facade, s.trace) + (if register then multiset{SlotOf(s, e)} else multiset{})
    ensures forall i :: |s.trace| <= i < |Step(h, s, e, register).trace| ==>
      !AddsAutoUnbind(Step(h, s, e, register).trace[i])
  {
    var s1 := if register then Register(s, e) else s;
    var r := Step(h, s, e, register);
    StepTrace(h, s, e, register);
    var tail := r.trace[|s1.trace|..];
    if register {
      ObservedSnoc(names, s.facade, s.trace, Observe(SlotOf(s, e), s.facade));
    }
    ObservedAppend(names, s.facade, s1.trace, tail);
    QuietTrace(Observed(names, s.facade, s1.trace), s.facade, tail);
    forall i | |s.trace| <= i < |r.trace|
      ensures !AddsAutoUnbind(r.trace[i])
    {
      if i >= |s1.trace| {
        assert r.trace[i] == tail[i - |s1.trace|] && IsSlotEffect(tail[i - |s1.trace|]);
      }
    }
  }

  /** A step's trace is the registration, if any, followed by slot effects. */
  lemma StepTrace(h: Heap, s: Symbol, e: EventHandler, register: bool)
    requires s.listeners.Some?
    requires register ==> s.eventsMap.Some?
    ensures var s1 := if register then Register(s, e) else s;
      var r := Step(h, s, e, register);
      |s1.trace| <= |r.trace| && SlotEffects(r.trace[|s1.trace|..]) && r.trace == s1.trace + r.trace[|s1.trace|..]
  {
    var s1 := if register then Register(s, e) else s;
    assert Step(h, s, e, register) == UpdateEvent(h, s1, e).value;
  }

  lemma {:induction false} QuietTrace(names: multiset<string>, facade: ObjId, t: seq<Effect>)
    requires SlotEffects(t)
    ensures Observed(names, facade, t) == names
    decreases |t|
  {
    if t != [] {
      assert SlotEffects(t[1..]) by {
        forall i | 0 <= i < |t[1..]|
          ensures IsSlotEffect(t[1..][i])
        {
          assert t[1..][i] == t[i + 1];
        }
      }
      QuietTrace(names, facade, t[1..]);
    }
  }

  /** One pass of `Step` over `events`, in order. */
  function Sweep(h: Heap, s: Symbol, events: seq<EventHandler>, register: bool): (r: Symbol)
    requires s.listeners.Some?
    requires register ==> s.eventsMap.Some?
    ensures r.facade == s.facade && r.host == s.host && r.caseSensitive == s.caseSensitive
    ensures r.events == s.events && r.listeners.Some?
    ensures !register ==> r.eventsMap == s.eventsMap
    ensures register ==> r.eventsMap.Some? && r.eventsMap.value.Keys == s.eventsMap.value.Keys + SlotsOf(s.caseSensitive, events)
    ensures MapCoherent(s) ==> MapCoherent(r)
    ensures s.trace <= r.trace
    decreases |events|
  {
    if events == [] then s
    else
      assert SlotsOf(s.caseSensitive, events) == {SlotOf(s, events[0])} + SlotsOf(s.caseSensitive, events[1..]);
      Sweep(h, Step(h, s, events[0], register), events[1..], register)
  }

  /** After a sweep every swept handler's slot is full exactly when the attach
      rule holds for it, and every other slot is as it was. Two handlers that
      share a slot agree, because the attach rule sees only the slot name. */
  lemma {:induction false} SweepInstalls(h: Heap, s: Symbol, events: seq<EventHandler>, register: bool)
    requires s.listeners.Some?
    requires register ==> s.eventsMap.Some?
    ensures forall e :: e in events ==>
      (Installed(Sweep(h, s, events, register), SlotOf(s, e)) <==> HasEventProperty(h, s.caseSensitive, s.facade, e.propertyName))
    ensures forall q :: q !in SlotsOf(s.caseSensitive, events) ==>
      (Installed(Sweep(h, s, events, register), q) <==> Installed(s, q))
    decreases |events|
  {
    if events != [] {
      var e := events[0];
      var s2 := Step(h, s, e, register);
      var rest := events[1..];
      SweepInstalls(h, s2, rest, register);
      var r := Sweep(h, s2, rest, register);
      assert r == Sweep(h, s, events, register);
      forall e' | e' in events
        ensures Installed(r, SlotOf(s, e')) <==> HasEventProperty(h, s.caseSensitive, s.facade, e'.propertyName)
      {
        if e' in rest {
        } else if SlotOf(s, e) in SlotsOf(s.caseSensitive, rest) {
          var e'' :| e'' in rest && Normalize(s.caseSensitive, e''.propertyName) == SlotOf(s, e);
          AttachRuleBySlot(h, s.caseSensitive, s.facade, e.propertyName, e''.propertyName);
        }
      }
      forall q | q !in SlotsOf(s.caseSensitive, events)
        ensures Installed(r, q) <==> Installed(s, q)
      {
        assert q != SlotOf(s, e);
        assert q !in SlotsOf(s.caseSensitive, rest);
      }
    }
  }

  /** A binding sweep registers one observer per handler under its
      normalised name; an update sweep registers none. */
  lemma {:induction false} SweepObservers(h: Heap, s: Symbol, events: seq<EventHandler>, register: bool, names: multiset<string>)
    requires s.listeners.Some?
    requires register ==> s.eventsMap.Some?
    ensures Observed(names, s.facade, Sweep(h, s, events, register).trace)
      == Observed(names, s.facade, s.trace) + (if register then multiset(SlotSeq(s.caseSensitive, events)) else multiset{})
    decreases |events|
  {
    if events != [] {
      var e := events[0];
      var rest := events[1..];
      var s2 := Step(h, s, e, register);
      var r := Sweep(h, s2, rest, register);
      assert r == Sweep(h, s, events, register);
      StepEffects(h, s, e, register, names);
      SweepObservers(h, s2, rest, register, names);
      SlotSeqCons(s.caseSensitive, events);
      AddInTurn(Observed(names, s.facade, s.trace), Observed(names, s.facade, s2.trace),
        Observed(names, s.facade, r.trace), SlotOf(s, e), multiset(SlotSeq(s.caseSensitive, rest)), register);
    }
  }

  lemma SlotSeqCons(caseSensitive: bool, events: seq<EventHandler>)
    requires events != []
    ensures multiset(SlotSeq(caseSensitive, events))
      == multiset{Normalize(caseSensitive, events[0].propertyName)} + multiset(SlotSeq(caseSensitive, events[1..]))
  {
    assert SlotSeq(caseSensitive, events)
      == [Normalize(caseSensitive, events[0].propertyName)] + SlotSeq(caseSensitive, events[1..]);
  }

  lemma AddInTurn(before: multiset<string>, mid: multiset<string>, after: multiset<string>, x: string, tail: multiset<string>, register: bool)
    requires mid == before + (if register then multiset{x} else multiset{})
    requires after == mid + (if register then tail else multiset{})
    ensures after == before + (if register then multiset{x} + tail else multiset{})
  {
  }

  /** A sweep adds no `removedFromStage` listener. */
  lemma {:induction false} SweepAddsNoAutoUnbind(h: Heap, s: Symbol, events: seq<EventHandler>, register: bool)
    requires s.listeners.Some?
    requires register ==> s.eventsMap.Some?
    ensures forall i :: |s.trace| <= i < |Sweep(h, s, events, register).trace| ==>
      !AddsAutoUnbind(Sweep(h, s, events, register).trace[i])
    decreases |events|
  {
    if events != [] {
      var s2 := Step(h, s, events[0], register);
      StepEffects(h, s, events[0], register, multiset{});
      SweepAddsNoAutoUnbind(h, s2, events[1..], register);
    }
  }

  /** The listener `bindEvents` adds when `autoUnbind` is set. */
  function AutoUnbindListen(s: Symbol): Effect {
    AddListener(HostTarget(s.host), Named("removedFromStage"), AutoUnbind(s.facade))
  }

  /** `bindEvents(events, autoUnbind)`: fresh slot and handler maps, then for
      each handler in order: enter it under its normalised name, register the
      façade as an observer of that name, and run `_updateEvent`. With
      `autoUnbind` a `removedFromStage` listener that unbinds is added. */
  function BindEvents(h: Heap, s: Symbol, events: seq<EventHandler>, autoUnbind: bool): (r: Symbol)
    ensures r.facade == s.facade && r.host == s.host && r.caseSensitive == s.caseSensitive
    ensures r.events == Some(events) && r.listeners.Some?
    ensures r.eventsMap.Some? && r.eventsMap.value.Keys == SlotsOf(s.caseSensitive, events) && MapCoherent(r)
    ensures forall q :: Installed(r, q) ==> q in SlotsOf(s.caseSensitive, events)
    ensures forall e :: e in events ==>
      (Installed(r, SlotOf(s, e)) <==> HasEventProperty(h, s.caseSensitive, s.facade, e.propertyName))
    ensures s.trace <= r.trace
    ensures autoUnbind ==> |r.trace| > |s.trace| && r.trace[|r.trace| - 1] == AutoUnbindListen(s)
    ensures !autoUnbind ==> forall i :: |s.trace| <= i < |r.trace| ==> !AddsAutoUnbind(r.trace[i])
  {
    var s0 := s.(events := Some(events), eventsMap := Some(map[]), listeners := Some(map[]));
    var s1 := Sweep(h, s0, events, true);
    SweepInstalls(h, s0, events, true);
    SweepAddsNoAutoUnbind(h, s0, events, true);
    if autoUnbind then s1.(trace := s1.trace + [AutoUnbindListen(s)]) else s1
  }

  /** In a case-insensitive context a handler bound under "Foo" is the one a
      notification for "foo" re-evaluates. */
  lemma BindFooNotifyfoo(h: Heap, s: Symbol, e: EventHandler, autoUnbind: bool)
    requires !s.caseSensitive && e.propertyName == "Foo"
    ensures var b := BindEvents(h, s, [e], autoUnbind);
      Normalize(false, "foo") in b.eventsMap.value && b.eventsMap.value[Normalize(false, "foo")] == e
      && OnEventPropertyModified(h, b, "foo") == UpdateEvent(h, b, e)
  {
    FooAndfooShareKey();
    var s0 := s.(events := Some([e]), eventsMap := Some(map[]), listeners := Some(map[]));
    assert Sweep(h, s0, [e], true) == Step(h, s0, e, true);
  }

  /** The first step of the loop of `unbindEvents`: unregister the observer,
      then `_removeEventListener`. The source unregisters under the raw
      property name; `normalized` selects the normalised name instead. */
  function UnbindStep(s: Symbol, e: EventHandler, normalized: bool): (r: Result<Symbol>)
    ensures r.Ok? <==> s.listeners.Some?
    ensures r.Ok? ==> SameBinding(s, r.value) && s.trace <= r.value.trace && !Installed(r.value, SlotOf(s, e))
    ensures r.Ok? ==> forall q :: q != SlotOf(s, e) ==> (Installed(r.value, q) <==> Installed(s, q))
    ensures r.Ok? && Installed(s, SlotOf(s, e)) ==> UnlistenEffect(s, e) in r.value.trace
  {
    var name := if normalized then SlotOf(s, e) else e.propertyName;
    RemoveEventListener(s.(trace := s.trace + [Unobserve(name, s.facade)]), e)
  }

  /** `UnbindStep` unregisters exactly one name. */
  lemma UnbindStepObservers(s: Symbol, e: EventHandler, normalized: bool, names: multiset<string>)
    requires s.listeners.Some?
    ensures Observed(names, s.facade, UnbindStep(s, e, normalized).value.trace)
      == Observed(names, s.facade, s.trace) - multiset{if normalized then SlotOf(s, e) else e.propertyName}
  {
    var name := if normalized then SlotOf(s, e) else e.propertyName;
    var s0 := s.(trace := s.trace + [Unobserve(name, s.facade)]);
    var r := UnbindStep(s, e, normalized).value;
    assert r == RemoveEventListener(s0, e).value;
    ObservedSnoc(names, s.facade, s.trace, Unobserve(name, s.facade));
    if Installed(s0, SlotOf(s0, e)) {
      var tail := [Unbound(e, s.facade), UnlistenEffect(s0, e)];
      assert SlotEffects(tail) && r.trace == s0.trace + tail;
      ObservedAppend(names, s.facade, s0.trace, tail);
      QuietTrace(Observed(names, s.facade, s0.trace), s.facade, tail);
    }
  }

  /** The loop of `unbindEvents` over `events`. */
  function UnbindEach(s: Symbol, events: seq<EventHandler>, normalized: bool): (r: Result<Symbol>)
    ensures r.Ok? <==> events == [] || s.listeners.Some?
    ensures r.Ok? ==> SameBinding(s, r.value) && s.trace <= r.value.trace
    decreases |events|
  {
    if events == [] then Ok(s)
    else
      var s1 :- UnbindStep(s, events[0], normalized);
      UnbindEach(s1, events[1..], normalized)
  }

  /** Unbinding empties the slot of every handler and, for every slot that was
      full, removes the host listener of a handler owning that slot. */
  lemma {:induction false} UnbindClearsSlots(s: Symbol, events: seq<EventHandler>, normalized: bool)
    requires UnbindEach(s, events, normalized).Ok?
    ensures forall e :: e in events ==> !Installed(UnbindEach(s, events, normalized).value, SlotOf(s, e))
    ensures forall q :: q !in SlotsOf(s.caseSensitive, events) ==>
      (Installed(UnbindEach(s, events, normalized).value, q) <==> Installed(s, q))
    ensures forall q :: q in SlotsOf(s.caseSensitive, events) && Installed(s, q) ==>
      exists e :: e in events && SlotOf(s, e) == q && UnlistenEffect(s, e) in UnbindEach(s, events, normalized).value.trace
    decreases |events|
  {
    if events != [] {
      var e := events[0];
      var rest := events[1..];
      var s1 := UnbindStep(s, e, normalized).value;
      UnbindClearsSlots(s1, rest, normalized);
      var r := UnbindEach(s1, rest, normalized).value;
      assert r == UnbindEach(s, events, normalized).value;
      assert SlotsOf(s.caseSensitive, events) == {SlotOf(s, e)} + SlotsOf(s.caseSensitive, rest);
      forall e' | e' in events
        ensures !Installed(r, SlotOf(s, e'))
      {
        if e' !in rest && SlotOf(s, e) in SlotsOf(s.caseSensitive, rest) {
          var e'' :| e'' in rest && Normalize(s.caseSensitive, e''.propertyName) == SlotOf(s, e);
          assert SlotOf(s1, e'') == SlotOf(s, e);
        }
      }
      forall q | q in SlotsOf(s.caseSensitive, events) && Installed(s, q)
        ensures exists e' :: e' in events && SlotOf(s, e') == q && UnlistenEffect(s, e') in r.trace
      {
        if q == SlotOf(s, e) {
          assert UnlistenEffect(s, e) in s1.trace;
          assert s1.trace <= r.trace;
          assert UnlistenEffect(s, e) in r.trace;
        } else {
          assert q in SlotsOf(s.caseSensitive, rest);
          var e' :| e' in rest && SlotOf(s1, e') == q && UnlistenEffect(s1, e') in r.trace;
          assert UnlistenEffect(s1, e') == UnlistenEffect(s, e');
        }
      }
    }
  }

  /** Removes one occurrence of each name in turn. */
  function SubtractEach(names: multiset<string>, drop: seq<string>): multiset<string>
    decreases |drop|
  {
    if drop == [] then names else SubtractEach(names - multiset{drop[0]}, drop[1..])
  }

  /** Unbinding unregisters one name per handler: the raw property name as
      written, the normalised one with `normalized`. */
  lemma {:induction false} UnbindObservers(s: Symbol, events: seq<EventHandler>, normalized: bool, names: multiset<string>)
    requires UnbindEach(s, events, normalized).Ok?
    ensures Observed(names, s.facade, UnbindEach(s, events, normalized).value.trace)
      == SubtractEach(Observed(names, s.facade, s.trace), if normalized then SlotSeq(s.caseSensitive, events) else NameSeq(events))
    decreases |events|
  {
    if events != [] {
      var s1 := UnbindStep(s, events[0], normalized).value;
      UnbindStepObservers(s, events[0], normalized, names);
      UnbindObservers(s1, events[1..], normalized, names);
      assert SlotSeq(s.caseSensitive, events)[1..] == SlotSeq(s.caseSensitive, events[1..]);
      assert NameSeq(events)[1..] == NameSeq(events[1..]);
    }
  }

  lemma {:induction false} SubtractAdded(names: multiset<string>, drop: seq<string>)
    ensures SubtractEach(names + multiset(drop), drop) == names
    decreases |drop|
  {
    if drop != [] {
      assert multiset(drop) == multiset{drop[0]} + multiset(drop[1..]) by {
        assert drop == [drop[0]] + drop[1..];
      }
      assert names + multiset(drop) - multiset{drop[0]} == names + multiset(drop[1..]);
      SubtractAdded(names, drop[1..]);
    }
  }

  /** `unbindEvents` as written: unregisters each handler under its raw
      property name, removes its listener, then drops all three tables.
      Throws when nothing was ever bound. */
  function UnbindEvents(s: Symbol): (r: Result<Symbol>)
    ensures r.Ok? <==> s.events.Some? && (s.events.value == [] || s.listeners.Some?)
    ensures r.Ok? ==> r.value.events.None? && r.value.eventsMap.None? && r.value.listeners.None?
    ensures r.Ok? ==> r.value.facade == s.facade && r.value.host == s.host && s.trace <= r.value.trace
  {
    if s.events.None? then Err(NullReference)
    else
      var s1 :- UnbindEach(s, s.events.value, false);
      Ok(s1.(events := None, eventsMap := None, listeners := None))
  }

  /** `unbindEvents` unregistering under the normalised name that `bindEvents`
      registered under. */
  function UnbindEventsIntended(s: Symbol): (r: Result<Symbol>)
    ensures r.Ok? <==> s.events.Some? && (s.events.value == [] || s.listeners.Some?)
    ensures r.Ok? ==> r.value.events.None? && r.value.eventsMap.None? && r.value.listeners.None?
    ensures r.Ok? ==> r.value.facade == s.facade && r.value.host == s.host && s.trace <= r.value.trace
  {
    if s.events.None? then Err(NullReference)
    else
      var s1 :- UnbindEach(s, s.events.value, true);
      Ok(s1.(events := None, eventsMap := None, listeners := None))
  }

  /** Binding then unbinding leaves the registry with what `bindEvents` added
      minus one occurrence of each unregistered name. */
  lemma BindThenUnbindObservers(h: Heap, s: Symbol, events: seq<EventHandler>, autoUnbind: bool, normalized: bool, names: multiset<string>)
    ensures UnbindEach(BindEvents(h, s, events, autoUnbind), events, normalized).Ok?
    ensures Observed(names, s.facade, UnbindEach(BindEvents(h, s, events, autoUnbind), events, normalized).value.trace)
      == SubtractEach(Observed(names, s.facade, s.trace) + multiset(SlotSeq(s.caseSensitive, events)),
                      if normalized then SlotSeq(s.caseSensitive, events) else NameSeq(events))
  {
    var s0 := s.(events := Some(events), eventsMap := Some(map[]), listeners := Some(map[]));
    var s1 := Sweep(h, s0, events, true);
    var b := BindEvents(h, s, events, autoUnbind);
    SweepObservers(h, s0, events, true, names);
    if autoUnbind {
      ObservedSnoc(names, s.facade, s1.trace, AutoUnbindListen(s));
    }
    UnbindObservers(b, events, normalized, names);
  }

  /** With the normalised name on both sides, binding and then unbinding
      leaves the context's observer registry as it found it. */
  lemma BindThenUnbindIntendedRestoresObservers(h: Heap, s: Symbol, events: seq<EventHandler>, autoUnbind: bool, names: multiset<string>)
    ensures UnbindEventsIntended(BindEvents(h, s, events, autoUnbind)).Ok?
    ensures Observed(names, s.facade, UnbindEventsIntended(BindEvents(h, s, events, autoUnbind)).value.trace)
      == Observed(names, s.facade, s.trace)
  {
    BindThenUnbindObservers(h, s, events, autoUnbind, true, names);
    SubtractAdded(Observed(names, s.facade, s.trace), SlotSeq(s.caseSensitive, events));
  }

  /** As written, in a case-insensitive context a handler whose property name
      has an upper-case letter stays registered after binding and unbinding:
      registration used the lower-cased name, unregistration the raw one.
      A later write of that property reaches a façade whose tables are gone,
      and the notification throws. */
  lemma UnbindLeavesStaleObserver(h: Heap, s: Symbol, e: EventHandler)
    requires !s.caseSensitive && Lower(e.propertyName) != e.propertyName
    ensures UnbindEvents(BindEvents(h, s, [e], false)).Ok?
    ensures var u := UnbindEvents(BindEvents(h, s, [e], false)).value;
      Observed(multiset{}, s.facade, u.trace)[Lower(e.propertyName)]
        == Observed(multiset{}, s.facade, s.trace)[Lower(e.propertyName)] + 1
      && OnEventPropertyModified(h, u, e.propertyName).Err?
  {
    var before := Observed(multiset{}, s.facade, s.trace);
    var b := BindEvents(h, s, [e], false);
    BindThenUnbindObservers(h, s, [e], false, false, multiset{});
    var u1 := UnbindEach(b, [e], false).value;
    assert UnbindEvents(b) == Ok(u1.(events := None, eventsMap := None, listeners := None));
    assert SlotSeq(false, [e]) == [Lower(e.propertyName)];
    assert NameSeq([e]) == [e.propertyName];
    var added := before + multiset([Lower(e.propertyName)]);
    assert SubtractEach(added, [e.propertyName]) == SubtractEach(added - multiset{e.propertyName}, []);
    assert Observed(multiset{}, s.facade, u1.trace) == added - multiset{e.propertyName};
    assert (added - multiset{e.propertyName})[Lower(e.propertyName)] == added[Lower(e.propertyName)];
  }

  /** The handler name "onPress" is one such name. */
  lemma OnPressHasUpperCase()
    ensures Lower("onPress") != "onPress"
  {
    assert Lower("onPress")[2] == 'p';
  }

  /** `updateAllEvents`: `_updateEvent` for every bound handler. */
  function UpdateAllEvents(h: Heap, s: Symbol): (r: Result<Symbol>)
    ensures r.Ok? <==> s.events.Some? && (s.events.value == [] || s.listeners.Some?)
    ensures r.Ok? ==> forall e :: e in s.events.value ==>
      (Installed(r.value, SlotOf(s, e)) <==> HasEventProperty(h, s.caseSensitive, s.facade, e.propertyName))
    ensures r.Ok? ==> forall q :: q !in SlotsOf(s.caseSensitive, s.events.value) ==> (Installed(r.value, q) <==> Installed(s, q))
  {
    if s.events.None? then Err(NullReference)
    else if s.events.value == [] then Ok(s)
    else if s.listeners.None? then Err(NullReference)
    else
      SweepInstalls(h, s, s.events.value, false);
      Ok(Sweep(h, s, s.events.value, false))
  }

  /** `onEventPropertyModified(name)`: re-run the attach rule for the handler
      entered under `name`'s normalised form. Throws when nothing is bound or
      no handler is entered under that name. */
  function OnEventPropertyModified(h: Heap, s: Symbol, name: string): (r: Result<Symbol>)
    ensures r.Ok? <==> s.eventsMap.Some? && Normalize(s.caseSensitive, name) in s.eventsMap.value && s.listeners.Some?
    ensures r.Ok? && MapCoherent(s) ==>
      (Installed(r.value, Normalize(s.caseSensitive, name)) <==> HasEventProperty(h, s.caseSensitive, s.facade, name))
    ensures r.Ok? && MapCoherent(s) ==>
      forall q :: q != Normalize(s.caseSensitive, name) ==> (Installed(r.value, q) <==> Installed(s, q))
  {
    if s.eventsMap.None? then Err(NullReference)
    else
      var p := Normalize(s.caseSensitive, name);
      if p !in s.eventsMap.value then Err(NullReference)
      else
        var e := s.eventsMap.value[p];
        assert MapCoherent(s) ==> (SlotOf(s, e) == p
          && HasEventProperty(h, s.caseSensitive, s.facade, e.propertyName) == HasEventProperty(h, s.caseSensitive, s.facade, name)) by {
          if MapCoherent(s) {
            AttachRuleBySlot(h, s.caseSensitive, s.facade, e.propertyName, name);
          }
        }
        UpdateEvent(h, s, e)
  }

  /** In a case-insensitive context, notifications for two spellings of a
      name that differ only in letter case are the same notification. */
  lemma NotifyIgnoresCase(h: Heap, s: Symbol, a: string, b: string)
    requires !s.caseSensitive && SameIgnoringCase(a, b)
    ensures OnEventPropertyModified(h, s, a) == OnEventPropertyModified(h, s, b)
  {
    NormalizeSameKey(false, a, b);
  }

  /** A second notification on an unchanged heap changes nothing: no double
      attach while the attach rule's answer is unchanged. */
  lemma NotifyTwice(h: Heap, s: Symbol, name: string)
    requires OnEventPropertyModified(h, s, name).Ok?
    ensures OnEventPropertyModified(h, OnEventPropertyModified(h, s, name).value, name) == OnEventPropertyModified(h, s, name)
  {
    var e := s.eventsMap.value[Normalize(s.caseSensitive, name)];
    UpdateEventIdempotent(h, s, e);
  }

  function RemovedListen(s: Symbol): Effect {
    RemoveListener(HostTarget(s.host), Named("removedFromStage"), AutoUnbind(s.facade))
  }

  /** `removedHandler`: the one-shot `removedFromStage` listener of
      `bindEvents` removes itself, then calls `unbindEvents` as written. */
  function OnRemovedFromStage(s: Symbol): (r: Result<Symbol>)
    ensures r.Ok? <==> s.events.Some? && (s.events.value == [] || s.listeners.Some?)
    ensures r.Ok? ==> r.value.listeners.None?
    ensures r.Ok? ==> s.trace + [RemovedListen(s)] <= r.value.trace
  {
    UnbindEvents(s.(trace := s.trace + [RemovedListen(s)]))
  }

  /** `removedHandler` with the corrected unbind of `UnbindEventsIntended`. */
  function OnRemovedFromStageIntended(s: Symbol): (r: Result<Symbol>)
    ensures r.Ok? <==> s.events.Some? && (s.events.value == [] || s.listeners.Some?)
    ensures r.Ok? ==> r.value.listeners.None?
    ensures r.Ok? ==> s.trace + [RemovedListen(s)] <= r.value.trace
  {
    UnbindEventsIntended(s.(trace := s.trace + [RemovedListen(s)]))
  }

  /** As written, a clip bound with `autoUnbind` and then removed from the
      stage keeps the observer registrations of the normalised names, minus
      one registration per raw property name. */
  lemma BindThenRemovedObservers(h: Heap, s: Symbol, events: seq<EventHandler>, names: multiset<string>)
    ensures OnRemovedFromStage(BindEvents(h, s, events, true)).Ok?
    ensures Observed(names, s.facade, OnRemovedFromStage(BindEvents(h, s, events, true)).value.trace)
      == SubtractEach(Observed(names, s.facade, s.trace) + multiset(SlotSeq(s.caseSensitive, events)), NameSeq(events))
  {
    var b := BindEvents(h, s, events, true);
    var b1 := b.(trace := b.trace + [RemovedListen(s)]);
    BindThenUnbindObservers(h, s, events, true, false, names);
    ObservedSnoc(names, s.facade, b.trace, RemovedListen(s));
    UnbindObservers(b, events, false, names);
    UnbindObservers(b1, events, false, names);
  }

  /** With the corrected unbind, a clip bound with `autoUnbind` and then
      removed from the stage leaves the context's observer registry as it
      found it. */
  lemma BindThenRemovedRestoresObservers(h: Heap, s: Symbol, events: seq<EventHandler>, names: multiset<string>)
    ensures OnRemovedFromStageIntended(BindEvents(h, s, events, true)).Ok?
    ensures Observed(names, s.facade, OnRemovedFromStageIntended(BindEvents(h, s, events, true)).value.trace)
      == Observed(names, s.facade, s.trace)
  {
    var b := BindEvents(h, s, events, true);
    var b1 := b.(trace := b.trace + [RemovedListen(s)]);
    BindThenUnbindObservers(h, s, events, true, true, names);
    ObservedSnoc(names, s.facade, b.trace, RemovedListen(s));
    UnbindObservers(b, events, true, names);
    UnbindObservers(b1, events, true, names);
    SubtractAdded(Observed(names, s.facade, s.trace), SlotSeq(s.caseSensitive, events));
  }
}
