/** Clip events of a placed symbol: `ClipEventMappings`, `initializeAVM1Object`
    and the teardown it installs (AVM1Utils.ts lines 369-460).

    A PlaceObject tag carries clip actions: for each, a flag word of
    `AVM1ClipEvents` bits and a compiled-once actions unit. Each set bit
    registers the unit's handler on the host event `ClipEventMappings` names
    for it; mouse events go to the stage instead of the clip. When any stage
    listener was registered, a `removedFromStage` listener is added that is
    meant to take them off the stage again.

    `AVM1ClipEvents` (in the SWF parser, which is not part of this model)
    gives event `i` of the declaration order the value `1 << i`; the model
    uses those values.
 */
module ClipEvents {
  import opened Wrappers
  import Avm1Heap
  import opened Effects
  import opened Facades

  datatype ClipEvent =
    | Load | EnterFrame | Unload | MouseMove | MouseDown | MouseUp | KeyDown | KeyUp
    | Data | Initialize | Press | Release | ReleaseOutside | RollOver | RollOut
    | DragOver | DragOut | KeyPress | Construct

  /** The number of entries of `ClipEventMappings`. */
  const EventCount: nat := 19

  /** The events in ascending flag order, which is the order in which
      `for (eventFlag in ClipEventMappings)` visits integer keys. */
  function EventAt(i: nat): ClipEvent
    requires i < EventCount
  {
    match i
    case 0 => Load case 1 => EnterFrame case 2 => Unload case 3 => MouseMove
    case 4 => MouseDown case 5 => MouseUp case 6 => KeyDown case 7 => KeyUp
    case 8 => Data case 9 => Initialize case 10 => Press case 11 => Release
    case 12 => ReleaseOutside case 13 => RollOver case 14 => RollOut
    case 15 => DragOver case 16 => DragOut case 17 => KeyPress case _ => Construct
  }

  function Index(e: ClipEvent): nat {
    match e
    case Load => 0 case EnterFrame => 1 case Unload => 2 case MouseMove => 3
    case MouseDown => 4 case MouseUp => 5 case KeyDown => 6 case KeyUp => 7
    case Data => 8 case Initialize => 9 case Press => 10 case Release => 11
    case ReleaseOutside => 12 case RollOver => 13 case RollOut => 14
    case DragOver => 15 case DragOut => 16 case KeyPress => 17 case Construct => 18
  }

  function Pow2(n: nat): (r: nat)
    ensures r >= 1
  {
    if n == 0 then 1 else 2 * Pow2(n - 1)
  }

  /** The `AVM1ClipEvents` value of an event. */
  function Bit(e: ClipEvent): nat {
    Pow2(Index(e))
  }

  /** The ascending order lists every event once, at its own index. */
  lemma EventOrder(e: ClipEvent)
    ensures Index(e) < EventCount && EventAt(Index(e)) == e
  {
  }

  lemma IndexOfEventAt(i: nat)
    requires i < EventCount
    ensures Index(EventAt(i)) == i
  {
  }

  lemma {:induction false} Pow2Increasing(a: nat, b: nat)
    requires a < b
    ensures Pow2(a) < Pow2(b)
    decreases b
  {
    if a < b - 1 {
      Pow2Increasing(a, b - 1);
    }
  }

  /** Flag values strictly increase along the visiting order. */
  lemma BitsIncrease(i: nat, j: nat)
    requires i < j < EventCount
    ensures Bit(EventAt(i)) < Bit(EventAt(j))
  {
    IndexOfEventAt(i);
    IndexOfEventAt(j);
    Pow2Increasing(i, j);
  }

  /** Bit `i` of `flags`. */
  predicate BitAt(flags: nat, i: nat)
    decreases i
  {
    if i == 0 then flags % 2 == 1 else BitAt(flags / 2, i - 1)
  }

  /** `flags & value` is non-zero. */
  predicate IsSet(flags: nat, e: ClipEvent) {
    BitAt(flags, Index(e))
  }

  /** Bit `i` is the remainder of dividing by the `i`-th power of two. */
  lemma {:induction false} BitAtDivides(flags: nat, i: nat)
    ensures BitAt(flags, i) <==> (flags / Pow2(i)) % 2 == 1
    decreases i
  {
    if i > 0 {
      BitAtDivides(flags / 2, i - 1);
      DivDiv(flags, Pow2(i - 1));
    }
  }

  lemma {:induction false} MulAtLeast(d: nat, k: nat)
    requires k >= 1
    ensures d * k >= d
    decreases k
  {
    if k > 1 {
      MulAtLeast(d, k - 1);
      assert d * k == d * (k - 1) + d;
    }
  }

  /** Division is determined by a quotient and a remainder below the divisor. */
  lemma DivUnique(a: nat, d: nat, q: nat, r: nat)
    requires d > 0 && r < d && a == d * q + r
    ensures a / d == q
  {
    var q' := a / d;
    var r' := a % d;
    assert a == d * q' + r';
    if q' > q {
      var k := q' - q;
      assert d * q' == d * q + d * k;
      MulAtLeast(d, k);
    } else if q' < q {
      var k := q - q';
      assert d * q == d * q' + d * k;
      MulAtLeast(d, k);
    }
  }

  lemma DivDiv(a: nat, c: nat)
    requires c > 0
    ensures a / 2 / c == a / (2 * c)
  {
    var q := a / 2 / c;
    var r2 := (a / 2) % c;
    var r1 := a % 2;
    assert a / 2 == c * q + r2;
    assert a == 2 * (a / 2) + r1;
    assert a == (2 * c) * q + (2 * r2 + r1);
    DivUnique(a, 2 * c, q, 2 * r2 + r1);
  }

  /** The set test agrees with `flags & Bit(e)` read arithmetically. */
  lemma IsSetMeansBit(flags: nat, e: ClipEvent)
    ensures IsSet(flags, e) <==> (flags / Bit(e)) % 2 == 1
  {
    BitAtDivides(flags, Index(e));
  }

  /** `ClipEventMappings`. Four entries hold a warning object instead of an
      event type string. */
  function Mapping(e: ClipEvent): EventName {
    match e
    case Load => Named("load")
    case EnterFrame => Named("frameConstructed")
    case Unload => Named("unload")
    case MouseMove => Named("mouseMove")
    case MouseDown => Named("mouseDown")
    case MouseUp => Named("mouseUp")
    case KeyDown => Named("keyDown")
    case KeyUp => Named("keyUp")
    case Data => Unimplemented("Data")
    case Initialize => Named("initialize")
    case Press => Named("mouseDown")
    case Release => Named("click")
    case ReleaseOutside => Named("releaseOutside")
    case RollOver => Named("mouseOver")
    case RollOut => Named("mouseOut")
    case DragOver => Unimplemented("DragOver")
    case DragOut => Unimplemented("DragOut")
    case KeyPress => Unimplemented("KeyPress")
    case Construct => Named("construct")
  }

  /** The event types whose handlers are registered on the stage. */
  predicate IsStageName(n: EventName) {
    n == Named("mouseDown") || n == Named("mouseUp") || n == Named("mouseMove")
  }

  /** The events that put the clip into button mode. */
  predicate IsButtonEvent(e: ClipEvent) {
    e == Release || e == ReleaseOutside || e == RollOver || e == RollOut
  }

  /** Exactly Press, MouseDown, MouseUp and MouseMove go to the stage: Press
      shares MouseDown's event type. */
  lemma StageEvents(e: ClipEvent)
    ensures IsStageName(Mapping(e)) <==> IsStageEvent(e)
  {
  }

  /** The events whose mapped name is a stage event type. The bit loop
      branches on the mapped name; `StageEvents` shows the two tests agree. */
  predicate IsStageEvent(e: ClipEvent) {
    e == Press || e == MouseDown || e == MouseUp || e == MouseMove
  }

  /** What the bit loop of one clip action produced: the host calls, and the
      entries pushed on `stageListeners`. */
  datatype Wiring = Wiring(effects: seq<Effect>, stage: seq<StageListener>)

  /** The kind of effect the bit loop makes for `host` and `handler`. */
  predicate WiringEffect(host: Avm1Heap.HostId, handler: Listener, eff: Effect) {
    eff == ButtonModeSet(host)
    || (eff.AddListener? && eff.listener == handler && (eff.target == Stage || eff.target == HostTarget(host)))
  }

  /** The events whose bits are set in `rest`, the flag word shifted right
      by `i`, in the order the loop over `ClipEventMappings` meets them;
      once `rest` is zero no further bit is set. */
  function SetEvents(rest: nat, i: nat): seq<ClipEvent>
    decreases rest
  {
    if rest == 0 || i >= EventCount then []
    else (if rest % 2 == 1 then [EventAt(i)] else []) + SetEvents(rest / 2, i + 1)
  }

  lemma {:induction false} BitAtZero(k: nat)
    ensures !BitAt(0, k)
    decreases k
  {
    if k > 0 {
      BitAtZero(k - 1);
    }
  }

  /** Event `e` is at or after position `i` and its bit is set in `rest`,
      the flag word shifted right by `i`. */
  predicate SetFrom(rest: nat, i: nat, e: ClipEvent) {
    i <= Index(e) && BitAt(rest, Index(e) - i)
  }

  /** One step of the loop: the event at position `i`, or a later one. */
  lemma SetFromStep(rest: nat, i: nat, e: ClipEvent)
    requires i < EventCount
    ensures SetFrom(rest, i, e) <==> (e == EventAt(i) && rest % 2 == 1) || SetFrom(rest / 2, i + 1, e)
  {
    IndexOfEventAt(i);
    EventOrder(e);
    if i < Index(e) {
      assert BitAt(rest, Index(e) - i) == BitAt(rest / 2, Index(e) - (i + 1));
    }
  }

  /** Where the loop stops, no bit is left. */
  lemma SetFromNone(rest: nat, i: nat, e: ClipEvent)
    requires rest == 0 || i >= EventCount
    ensures !SetFrom(rest, i, e)
  {
    EventOrder(e);
    if rest == 0 && i <= Index(e) {
      BitAtZero(Index(e) - i);
    }
  }

  /** The loop meets exactly the events whose bits are set. */
  lemma {:induction false} SetEventsMembers(rest: nat, i: nat, e: ClipEvent)
    ensures e in SetEvents(rest, i) <==> SetFrom(rest, i, e)
    decreases rest
  {
    if rest == 0 || i >= EventCount {
      SetFromNone(rest, i, e);
    } else {
      SetEventsMembers(rest / 2, i + 1, e);
      SetFromStep(rest, i, e);
    }
  }

  /** Unshifted, the events met are those whose bit `IsSet`. */
  lemma SetEventsFlags(flags: nat, e: ClipEvent)
    ensures e in SetEvents(flags, 0) <==> IsSet(flags, e)
  {
    SetEventsMembers(flags, 0, e);
  }

  /** What the bit loop does for one set bit whose event is `e`: a stage
      event is listened for on the stage and remembered; any other is
      listened for on the clip, after setting button mode for a button event. */
  function WireEvent(host: Avm1Heap.HostId, handler: Listener, e: ClipEvent): (r: Wiring)
    ensures forall eff :: eff in r.effects ==> WiringEffect(host, handler, eff)
  {
    if IsStageEvent(e) then
      Wiring([AddListener(Stage, Mapping(e), handler)], [StageListener(Mapping(e).text, handler)])
    else
      Wiring((if IsButtonEvent(e) then [ButtonModeSet(host)] else []) + [AddListener(HostTarget(host), Mapping(e), handler)], [])
  }

  /** A set bit is listened for on the stage exactly for a stage event, on
      the clip otherwise, under the event's mapped name; only button events
      set button mode; and the stage entries remembered are exactly the stage
      registrations. */
  lemma WireEventFacts(host: Avm1Heap.HostId, handler: Listener, e: ClipEvent)
    ensures var r := WireEvent(host, handler, e);
      (forall n :: AddListener(Stage, n, handler) in r.effects <==> IsStageEvent(e) && Mapping(e) == n)
      && (forall n :: AddListener(HostTarget(host), n, handler) in r.effects <==> !IsStageEvent(e) && Mapping(e) == n)
      && (ButtonModeSet(host) in r.effects <==> IsButtonEvent(e))
      && (forall p :: p in r.stage <==> p.handler == handler && AddListener(Stage, Named(p.eventName), handler) in r.effects)
  {
  }

  /** The bit loop's work for the events `es` in order. */
  function WireAll(host: Avm1Heap.HostId, handler: Listener, es: seq<ClipEvent>): (r: Wiring)
    ensures forall eff :: eff in r.effects ==> WiringEffect(host, handler, eff)
    decreases |es|
  {
    if es == [] then Wiring([], [])
    else
      var w := WireEvent(host, handler, es[0]);
      var tail := WireAll(host, handler, es[1..]);
      Wiring(w.effects + tail.effects, w.stage + tail.stage)
  }

  lemma {:induction false} WireAllEffects(host: Avm1Heap.HostId, handler: Listener, es: seq<ClipEvent>, eff: Effect)
    ensures eff in WireAll(host, handler, es).effects <==> exists e :: e in es && eff in WireEvent(host, handler, e).effects
    decreases |es|
  {
    if es != [] {
      WireAllEffects(host, handler, es[1..], eff);
      assert forall e :: e in es <==> e == es[0] || e in es[1..];
    }
  }

  lemma {:induction false} WireAllStage(host: Avm1Heap.HostId, handler: Listener, es: seq<ClipEvent>, p: StageListener)
    ensures p in WireAll(host, handler, es).stage <==> exists e :: e in es && p in WireEvent(host, handler, e).stage
    decreases |es|
  {
    if es != [] {
      WireAllStage(host, handler, es[1..], p);
      assert forall e :: e in es <==> e == es[0] || e in es[1..];
    }
  }

  /** The inner loop of `initializeAVM1Object` for one clip action with flag
      word `flags` and bound handler `handler`. */
  function WireFlags(host: Avm1Heap.HostId, flags: nat, handler: Listener): (r: Wiring)
    ensures forall eff :: eff in r.effects ==> WiringEffect(host, handler, eff)
  {
    WireAll(host, handler, SetEvents(flags, 0))
  }

  /** The bit loop listens on the stage for `n` exactly when a set bit of a
      stage event maps to `n`. */
  lemma WireFlagsStage(host: Avm1Heap.HostId, flags: nat, handler: Listener, n: EventName)
    ensures AddListener(Stage, n, handler) in WireFlags(host, flags, handler).effects <==>
      exists e :: IsSet(flags, e) && IsStageEvent(e) && Mapping(e) == n
  {
    var eff := AddListener(Stage, n, handler);
    WireAllEffects(host, handler, SetEvents(flags, 0), eff);
    if exists e :: e in SetEvents(flags, 0) && eff in WireEvent(host, handler, e).effects {
      var e :| e in SetEvents(flags, 0) && eff in WireEvent(host, handler, e).effects;
      SetEventsFlags(flags, e);
      WireEventFacts(host, handler, e);
    }
    if exists e :: IsSet(flags, e) && IsStageEvent(e) && Mapping(e) == n {
      var e :| IsSet(flags, e) && IsStageEvent(e) && Mapping(e) == n;
      SetEventsFlags(flags, e);
      WireEventFacts(host, handler, e);
    }
  }

  /** The bit loop listens on the clip for `n` exactly when a set bit of an
      event that is not a stage event maps to `n`. */
  lemma WireFlagsHost(host: Avm1Heap.HostId, flags: nat, handler: Listener, n: EventName)
    ensures AddListener(HostTarget(host), n, handler) in WireFlags(host, flags, handler).effects <==>
      exists e :: IsSet(flags, e) && !IsStageEvent(e) && Mapping(e) == n
  {
    var eff := AddListener(HostTarget(host), n, handler);
    WireAllEffects(host, handler, SetEvents(flags, 0), eff);
    if exists e :: e in SetEvents(flags, 0) && eff in WireEvent(host, handler, e).effects {
      var e :| e in SetEvents(flags, 0) && eff in WireEvent(host, handler, e).effects;
      SetEventsFlags(flags, e);
      WireEventFacts(host, handler, e);
    }
    if exists e :: IsSet(flags, e) && !IsStageEvent(e) && Mapping(e) == n {
      var e :| IsSet(flags, e) && !IsStageEvent(e) && Mapping(e) == n;
      SetEventsFlags(flags, e);
      WireEventFacts(host, handler, e);
    }
  }

  /** The bit loop sets button mode exactly when a button event bit is set. */
  lemma WireFlagsButton(host: Avm1Heap.HostId, flags: nat, handler: Listener)
    ensures ButtonModeSet(host) in WireFlags(host, flags, handler).effects <==>
      exists e :: IsSet(flags, e) && IsButtonEvent(e)
  {
    var eff := ButtonModeSet(host);
    WireAllEffects(host, handler, SetEvents(flags, 0), eff);
    if exists e :: e in SetEvents(flags, 0) && eff in WireEvent(host, handler, e).effects {
      var e :| e in SetEvents(flags, 0) && eff in WireEvent(host, handler, e).effects;
      SetEventsFlags(flags, e);
      WireEventFacts(host, handler, e);
    }
    if exists e :: IsSet(flags, e) && IsButtonEvent(e) {
      var e :| IsSet(flags, e) && IsButtonEvent(e);
      SetEventsFlags(flags, e);
      WireEventFacts(host, handler, e);
    }
  }

  /** The bit loop's pending stage entries are exactly its stage
      registrations. */
  lemma WireFlagsPending(host: Avm1Heap.HostId, flags: nat, handler: Listener, p: StageListener)
    ensures p in WireFlags(host, flags, handler).stage <==>
      p.handler == handler && AddListener(Stage, Named(p.eventName), handler) in WireFlags(host, flags, handler).effects
  {
    var es := SetEvents(flags, 0);
    var eff := AddListener(Stage, Named(p.eventName), handler);
    WireAllStage(host, handler, es, p);
    WireAllEffects(host, handler, es, eff);
    if exists e :: e in es && eff in WireEvent(host, handler, e).effects {
      var e :| e in es && eff in WireEvent(host, handler, e).effects;
      WireEventFacts(host, handler, e);
      if p.handler == handler {
        assert p in WireEvent(host, handler, e).stage;
      }
    }
  }

  // ----- Actions-unit keys -----

  function DigitChar(d: nat): char
    requires d < 10
  {
    "0123456789"[d]
  }

  predicate IsDigitChar(c: char) {
    '0' <= c <= '9'
  }

  /** The decimal text of `n`, as string concatenation renders a number. */
  function NatToString(n: nat): (s: string)
    ensures |s| >= 1 && forall i :: 0 <= i < |s| ==> IsDigitChar(s[i])
    ensures (|s| == 1) <==> n < 10
    decreases n
  {
    if n < 10 then [DigitChar(n)] else NatToString(n / 10) + [DigitChar(n % 10)]
  }

  lemma DigitCharInjective(a: nat, b: nat)
    requires a < 10 && b < 10 && DigitChar(a) == DigitChar(b)
    ensures a == b
  {
  }

  /** Different numbers render differently. */
  lemma {:induction false} NatToStringInjective(a: nat, b: nat)
    requires NatToString(a) == NatToString(b)
    ensures a == b
    decreases a
  {
    var s := NatToString(a);
    if a >= 10 && b >= 10 {
      assert s[|s| - 1] == DigitChar(a % 10);
      assert NatToString(b)[|s| - 1] == DigitChar(b % 10);
      DigitCharInjective(a % 10, b % 10);
      assert NatToString(a / 10) == s[..|s| - 1] == NatToString(b / 10);
      NatToStringInjective(a / 10, b / 10);
    } else if a < 10 && b < 10 {
      DigitCharInjective(a, b);
    }
  }

  /** The text of an actions unit's name: `'s' + symbolId + 'e' + j`. */
  function KeyText(k: UnitKey): string {
    "s" + NatToString(k.symbolId) + "e" + NatToString(k.entry)
  }

  /** In a key's text, the symbol id's digits run from index 1 up to the
      first 'e'. */
  lemma KeyTextShape(k: UnitKey)
    ensures var t := KeyText(k); var d := NatToString(k.symbolId);
      t[1 + |d|] == 'e' && (forall i :: 1 <= i <= |d| ==> IsDigitChar(t[i]))
      && t[1..1 + |d|] == d && t[2 + |d|..] == NatToString(k.entry)
  {
    var t := KeyText(k);
    var d := NatToString(k.symbolId);
    forall i | 1 <= i <= |d|
      ensures IsDigitChar(t[i])
    {
      assert t[i] == d[i - 1];
    }
  }

  /** Distinct clip actions, of the same symbol or of different ones, get
      distinct key texts, so the key's two numbers stand for it. */
  lemma KeyTextInjective(k1: UnitKey, k2: UnitKey)
    requires KeyText(k1) == KeyText(k2)
    ensures k1 == k2
  {
    KeyTextShape(k1);
    KeyTextShape(k2);
    var d1 := NatToString(k1.symbolId);
    var d2 := NatToString(k2.symbolId);
    assert |d1| == |d2|;
    NatToStringInjective(k1.symbolId, k2.symbolId);
    NatToStringInjective(k1.entry, k2.entry);
  }

  // ----- The PlaceObject tag -----

  /** A clip action of the tag. `raw` is `actionsData`, the uncompiled bytes,
      until the first placement compiles them into `compiled`. */
  datatype SwfEvent = SwfEvent(flags: nat, raw: Option<seq<nat>>, compiled: Option<ActionsData>)

  datatype PlaceObject = PlaceObject(symbolId: nat, variableName: Option<string>, events: Option<seq<SwfEvent>>)

  /** The actions unit clip action `j` uses, the clip action as the tag holds
      it afterwards, and the compile call made: raw bytes are compiled once
      under their key and replaced by the compiled unit. */
  function Compile(symbolId: nat, j: nat, ev: SwfEvent): (r: (Option<ActionsData>, SwfEvent, seq<Effect>))
    ensures r.1.flags == ev.flags && r.1.raw.None? && r.1.compiled == r.0
    ensures ev.raw.Some? ==> (r.0 == Some(ActionsData(UnitKey(symbolId, j), ev.raw.value))
      && r.2 == [ActionsCompiled(UnitKey(symbolId, j))])
    ensures ev.raw.None? ==> r.0 == ev.compiled && r.1 == ev && r.2 == []
  {
    match ev.raw
    case Some(bytes) =>
      var a := ActionsData(UnitKey(symbolId, j), bytes);
      (Some(a), SwfEvent(ev.flags, None, Some(a)), [ActionsCompiled(UnitKey(symbolId, j))])
    case None => (ev.compiled, ev, [])
  }

  /** `clipEventHandler.bind(null, actionsData, instanceAVM1)` for clip
      action `j`: each clip action has its own handler. */
  function HandlerAt(symbolId: nat, host: Avm1Heap.HostId, receiver: Option<Avm1Heap.ObjId>, events: seq<SwfEvent>, j: nat): Listener
    requires j < |events|
  {
    ClipHandler(host, j, Compile(symbolId, j, events[j]).0, receiver)
  }

  /** The bit loop for clip action `j`. */
  function WiringAt(symbolId: nat, host: Avm1Heap.HostId, receiver: Option<Avm1Heap.ObjId>, events: seq<SwfEvent>, j: nat): Wiring
    requires j < |events|
  {
    WireFlags(host, events[j].flags, HandlerAt(symbolId, host, receiver, events, j))
  }

  /** Every bit loop of `ws` makes only the kind of effect `WireFlags` makes,
      for its own clip action's handler. */
  predicate Wired(symbolId: nat, host: Avm1Heap.HostId, receiver: Option<Avm1Heap.ObjId>, events: seq<SwfEvent>, ws: seq<Wiring>) {
    |ws| == |events|
    && forall j, eff :: 0 <= j < |ws| && eff in ws[j].effects ==>
         WiringEffect(host, HandlerAt(symbolId, host, receiver, events, j), eff)
  }

  /** The bit loops of all clip actions, one per clip action. */
  function BitLoops(symbolId: nat, host: Avm1Heap.HostId, receiver: Option<Avm1Heap.ObjId>, events: seq<SwfEvent>): (ws: seq<Wiring>)
    ensures Wired(symbolId, host, receiver, events, ws)
    ensures forall j :: 0 <= j < |events| ==> ws[j] == WiringAt(symbolId, host, receiver, events, j)
  {
    seq(|events|, j requires 0 <= j < |events| => WiringAt(symbolId, host, receiver, events, j))
  }

  datatype EventsWiring = EventsWiring(effects: seq<Effect>, stage: seq<StageListener>, events: seq<SwfEvent>)

  /** The outer loop of `initializeAVM1Object` over the first `n` clip
      actions: compile clip action `j` if needed, then run its bit loop
      `ws[j]`. */
  function WirePrefix(symbolId: nat, events: seq<SwfEvent>, ws: seq<Wiring>, n: nat): (r: EventsWiring)
    requires n <= |events| == |ws|
    ensures |r.events| == n && forall j :: 0 <= j < n ==> r.events[j] == Compile(symbolId, j, events[j]).1
    decreases n
  {
    if n == 0 then EventsWiring([], [], [])
    else
      var prev := WirePrefix(symbolId, events, ws, n - 1);
      var ev := Compile(symbolId, n - 1, events[n - 1]);
      EventsWiring(prev.effects + ev.2 + ws[n - 1].effects, prev.stage + ws[n - 1].stage, prev.events + [ev.1])
  }

  /** The outer loop over all clip actions of a tag. */
  function WireActions(symbolId: nat, host: Avm1Heap.HostId, receiver: Option<Avm1Heap.ObjId>, events: seq<SwfEvent>): (r: EventsWiring)
    ensures |r.events| == |events| && forall j :: 0 <= j < |events| ==> r.events[j] == Compile(symbolId, j, events[j]).1
  {
    WirePrefix(symbolId, events, BitLoops(symbolId, host, receiver, events), |events|)
  }

  /** Compile calls are made exactly for the clip actions that still had raw
      bytes, each under its own key. */
  lemma {:induction false} WirePrefixCompiles(symbolId: nat, host: Avm1Heap.HostId, receiver: Option<Avm1Heap.ObjId>, events: seq<SwfEvent>, ws: seq<Wiring>, n: nat, j: nat)
    requires Wired(symbolId, host, receiver, events, ws) && j < n <= |events|
    ensures ActionsCompiled(UnitKey(symbolId, j)) in WirePrefix(symbolId, events, ws, n).effects
      <==> events[j].raw.Some?
    decreases n
  {
    var prev := WirePrefix(symbolId, events, ws, n - 1);
    var ev := Compile(symbolId, n - 1, events[n - 1]);
    var c := ActionsCompiled(UnitKey(symbolId, j));
    assert WirePrefix(symbolId, events, ws, n).effects == prev.effects + ev.2 + ws[n - 1].effects;
    assert c !in ws[n - 1].effects;
    if j < n - 1 {
      WirePrefixCompiles(symbolId, host, receiver, events, ws, n - 1, j);
    } else {
      CompileKeysBelow(symbolId, host, receiver, events, ws, n - 1, j);
    }
  }

  /** The first `n` clip actions make no compile call under the key of a
      later one. */
  lemma {:induction false} CompileKeysBelow(symbolId: nat, host: Avm1Heap.HostId, receiver: Option<Avm1Heap.ObjId>, events: seq<SwfEvent>, ws: seq<Wiring>, n: nat, m: nat)
    requires Wired(symbolId, host, receiver, events, ws) && n <= |events| && n <= m
    ensures ActionsCompiled(UnitKey(symbolId, m)) !in WirePrefix(symbolId, events, ws, n).effects
    decreases n
  {
    if n > 0 {
      CompileKeysBelow(symbolId, host, receiver, events, ws, n - 1, m);
      assert ActionsCompiled(UnitKey(symbolId, m)) !in ws[n - 1].effects;
    }
  }

  /** The first `n` clip actions register no handler of a later one. */
  lemma {:induction false} WirePrefixLaterHandlers(symbolId: nat, host: Avm1Heap.HostId, receiver: Option<Avm1Heap.ObjId>, events: seq<SwfEvent>, ws: seq<Wiring>, n: nat, j: nat, eff: Effect)
    requires Wired(symbolId, host, receiver, events, ws) && n <= j < |events|
    requires eff.AddListener? && eff.listener == HandlerAt(symbolId, host, receiver, events, j)
    ensures eff !in WirePrefix(symbolId, events, ws, n).effects
    decreases n
  {
    if n > 0 {
      WirePrefixLaterHandlers(symbolId, host, receiver, events, ws, n - 1, j, eff);
      assert HandlerAt(symbolId, host, receiver, events, n - 1).entry == n - 1;
    }
  }

  /** Clip action `j`'s host registrations are exactly those of its own bit
      loop: handlers of different clip actions are different functions. */
  lemma {:induction false} WirePrefixRegistrations(symbolId: nat, host: Avm1Heap.HostId, receiver: Option<Avm1Heap.ObjId>, events: seq<SwfEvent>, ws: seq<Wiring>, n: nat, j: nat, eff: Effect)
    requires Wired(symbolId, host, receiver, events, ws) && j < n <= |events|
    requires eff.AddListener? && eff.listener == HandlerAt(symbolId, host, receiver, events, j)
    ensures eff in WirePrefix(symbolId, events, ws, n).effects <==> eff in ws[j].effects
    decreases n
  {
    var prev := WirePrefix(symbolId, events, ws, n - 1);
    var ev := Compile(symbolId, n - 1, events[n - 1]);
    assert WirePrefix(symbolId, events, ws, n).effects == prev.effects + ev.2 + ws[n - 1].effects;
    assert eff !in ev.2;
    if j < n - 1 {
      WirePrefixRegistrations(symbolId, host, receiver, events, ws, n - 1, j, eff);
      assert HandlerAt(symbolId, host, receiver, events, n - 1).entry == n - 1;
    } else {
      WirePrefixLaterHandlers(symbolId, host, receiver, events, ws, n - 1, j, eff);
    }
  }

  /** Some clip action sets button mode exactly when some bit loop does. */
  lemma {:induction false} WirePrefixButtonMode(symbolId: nat, host: Avm1Heap.HostId, events: seq<SwfEvent>, ws: seq<Wiring>, n: nat)
    requires n <= |events| == |ws|
    ensures ButtonModeSet(host) in WirePrefix(symbolId, events, ws, n).effects
      <==> exists k :: 0 <= k < n && ButtonModeSet(host) in ws[k].effects
    decreases n
  {
    if n > 0 {
      var prev := WirePrefix(symbolId, events, ws, n - 1);
      var ev := Compile(symbolId, n - 1, events[n - 1]);
      var b := ButtonModeSet(host);
      assert WirePrefix(symbolId, events, ws, n).effects == prev.effects + ev.2 + ws[n - 1].effects;
      assert b !in ev.2;
      WirePrefixButtonMode(symbolId, host, events, ws, n - 1);
      if b in ws[n - 1].effects {
        assert 0 <= n - 1 < n && b in ws[n - 1].effects;
      } else if b in prev.effects {
        var k :| 0 <= k < n - 1 && b in ws[k].effects;
        assert 0 <= k < n;
      }
    }
  }

  /** The pending stage entries are those of all bit loops. */
  lemma {:induction false} WirePrefixStage(symbolId: nat, events: seq<SwfEvent>, ws: seq<Wiring>, n: nat, p: StageListener)
    requires n <= |events| == |ws|
    ensures p in WirePrefix(symbolId, events, ws, n).stage
      <==> exists k :: 0 <= k < n && p in ws[k].stage
    decreases n
  {
    if n > 0 {
      var prev := WirePrefix(symbolId, events, ws, n - 1);
      assert WirePrefix(symbolId, events, ws, n).stage == prev.stage + ws[n - 1].stage;
      WirePrefixStage(symbolId, events, ws, n - 1, p);
      if exists k :: 0 <= k < n && p in ws[k].stage {
        var k :| 0 <= k < n && p in ws[k].stage;
        if k < n - 1 {
          assert p in prev.stage;
        }
      }
    }
  }

  // ----- initializeAVM1Object -----

  /** The `removedFromStage` listener added when stage listeners were registered. */
  function TeardownListen(host: Avm1Heap.HostId, pending: seq<StageListener>): Effect {
    AddListener(HostTarget(host), Named("removedFromStage"), StageTeardown(host, pending))
  }

  /** The clip-action half of `initializeAVM1Object`: nothing when the tag has
      no clip actions; otherwise the compile calls and registrations of every
      clip action in order, then the teardown listener when any stage listener
      was registered. Also gives the tag as left behind. */
  function ClipActions(host: Avm1Heap.HostId, receiver: Option<Avm1Heap.ObjId>, tag: PlaceObject): (r: (seq<Effect>, PlaceObject))
    ensures tag.events.None? ==> r == ([], tag)
    ensures r.1.symbolId == tag.symbolId && r.1.variableName == tag.variableName
    ensures tag.events.Some? ==> (r.1.events.Some? && |r.1.events.value| == |tag.events.value|
      && forall j :: 0 <= j < |tag.events.value| ==>
           r.1.events.value[j].flags == tag.events.value[j].flags && r.1.events.value[j].raw.None?)
  {
    match tag.events
    case None => ([], tag)
    case Some(evs) =>
      var wp := WireActions(tag.symbolId, host, receiver, evs);
      (wp.effects + (if wp.stage != [] then [TeardownListen(host, wp.stage)] else []),
       tag.(events := Some(wp.events)))
  }

  /** `instanceAVM1.alPut('variable', name)` when the tag names a variable
      (an empty name is falsy and skipped); throws when there is no façade. */
  function SetVariable(w: World, inst: Option<Avm1Heap.ObjId>, name: Option<string>): (r: Result<World>)
    ensures r.Ok? <==> name.None? || name.value == "" || inst.Some?
    ensures r.Ok? ==> r.value.heap == w.heap && r.value.hosts == w.hosts
    ensures r.Ok? && name.Some? && name.value != "" ==> r.value.trace == w.trace + [VariableSet(inst.value, name.value)]
    ensures r.Ok? && (name.None? || name.value == "") ==> r.value == w
  {
    if name.None? || name.value == "" then Ok(w)
    else if inst.None? then Err(NullReference)
    else Ok(w.(trace := w.trace + [VariableSet(inst.value, name.value)]))
  }

  /** `initializeAVM1Object(as3Object, context, placeObjectTag)`: look up (or
      create) the façade, set its variable name, and wire the clip actions. */
  function InitializeAvm1Object(ctx: Context, w: World, host: Avm1Heap.HostId, tag: PlaceObject): (r: Result<(World, PlaceObject)>)
    requires host in w.hosts
    ensures var g := GetAvm1Object(ctx, w, Some(host));
      r.Ok? <==> g.Ok? && (tag.variableName.None? || tag.variableName.value == "" || g.value.1.Some?)
    ensures r.Ok? ==> var (w1, inst) := GetAvm1Object(ctx, w, Some(host)).value;
      r.value.0.heap == w1.heap && r.value.0.hosts == w1.hosts
      && r.value.0.trace == SetVariable(w1, inst, tag.variableName).value.trace + ClipActions(host, inst, tag).0
      && r.value.1 == ClipActions(host, inst, tag).1
  {
    var (w1, inst) :- GetAvm1Object(ctx, w, Some(host));
    var w2 :- SetVariable(w1, inst, tag.variableName);
    var (effs, tag') := ClipActions(host, inst, tag);
    Ok((w2.(trace := w2.trace + effs), tag'))
  }

  /** Clip action `j` listens on the clip for event type `n` exactly when one
      of its set bits maps to `n` and `n` is not a stage event type, and on
      the stage exactly when one maps to a stage event type `n`. */
  lemma ClipActionRegistrations(host: Avm1Heap.HostId, receiver: Option<Avm1Heap.ObjId>, tag: PlaceObject, j: nat, n: EventName)
    requires tag.events.Some? && j < |tag.events.value|
    ensures var h := HandlerAt(tag.symbolId, host, receiver, tag.events.value, j);
      var flags := tag.events.value[j].flags;
      (AddListener(HostTarget(host), n, h) in ClipActions(host, receiver, tag).0 <==>
         !IsStageName(n) && exists e :: IsSet(flags, e) && Mapping(e) == n)
      && (AddListener(Stage, n, h) in ClipActions(host, receiver, tag).0 <==>
         IsStageName(n) && exists e :: IsSet(flags, e) && Mapping(e) == n)
  {
    var evs := tag.events.value;
    var flags := evs[j].flags;
    var h := HandlerAt(tag.symbolId, host, receiver, evs, j);
    ClipActionListeners(host, receiver, tag, j, AddListener(HostTarget(host), n, h));
    ClipActionListeners(host, receiver, tag, j, AddListener(Stage, n, h));
    WireFlagsHost(host, flags, h, n);
    WireFlagsStage(host, flags, h, n);
    if exists e :: IsSet(flags, e) && Mapping(e) == n {
      var e :| IsSet(flags, e) && Mapping(e) == n;
      StageEvents(e);
    }
    if exists e :: IsSet(flags, e) && IsStageEvent(e) && Mapping(e) == n {
      var e :| IsSet(flags, e) && IsStageEvent(e) && Mapping(e) == n;
      StageEvents(e);
    }
    if exists e :: IsSet(flags, e) && !IsStageEvent(e) && Mapping(e) == n {
      var e :| IsSet(flags, e) && !IsStageEvent(e) && Mapping(e) == n;
      StageEvents(e);
    }
  }

  /** Among the host calls of a whole tag, those registering clip action
      `j`'s handler are exactly those of its own bit loop. */
  lemma ClipActionListeners(host: Avm1Heap.HostId, receiver: Option<Avm1Heap.ObjId>, tag: PlaceObject, j: nat, eff: Effect)
    requires tag.events.Some? && j < |tag.events.value|
    requires eff.AddListener? && eff.listener == HandlerAt(tag.symbolId, host, receiver, tag.events.value, j)
    ensures eff in ClipActions(host, receiver, tag).0 <==> eff in WiringAt(tag.symbolId, host, receiver, tag.events.value, j).effects
  {
    var evs := tag.events.value;
    var wp := WireActions(tag.symbolId, host, receiver, evs);
    assert ClipActions(host, receiver, tag).0 == wp.effects + (if wp.stage != [] then [TeardownListen(host, wp.stage)] else []);
    WirePrefixRegistrations(tag.symbolId, host, receiver, evs, BitLoops(tag.symbolId, host, receiver, evs), |evs|, j, eff);
  }

  /** The clip is put into button mode exactly when some clip action has a
      Release, ReleaseOutside, RollOver or RollOut bit. */
  lemma ClipActionButtonMode(host: Avm1Heap.HostId, receiver: Option<Avm1Heap.ObjId>, tag: PlaceObject)
    requires tag.events.Some?
    ensures var evs := tag.events.value;
      ButtonModeSet(host) in ClipActions(host, receiver, tag).0 <==>
        exists j, e :: 0 <= j < |evs| && IsSet(evs[j].flags, e) && IsButtonEvent(e)
  {
    var evs := tag.events.value;
    var b := ButtonModeSet(host);
    var wp := WireActions(tag.symbolId, host, receiver, evs);
    assert b in ClipActions(host, receiver, tag).0 <==> b in wp.effects;
    WirePrefixButtonMode(tag.symbolId, host, evs, BitLoops(tag.symbolId, host, receiver, evs), |evs|);
    if exists j, e :: 0 <= j < |evs| && IsSet(evs[j].flags, e) && IsButtonEvent(e) {
      var j, e :| 0 <= j < |evs| && IsSet(evs[j].flags, e) && IsButtonEvent(e);
      ButtonModeIf(host, receiver, tag, j, e);
    }
    if b in wp.effects {
      var k :| 0 <= k < |evs| && b in WiringAt(tag.symbolId, host, receiver, evs, k).effects;
      WireFlagsButton(host, evs[k].flags, HandlerAt(tag.symbolId, host, receiver, evs, k));
    }
  }

  lemma ButtonModeIf(host: Avm1Heap.HostId, receiver: Option<Avm1Heap.ObjId>, tag: PlaceObject, j: nat, e: ClipEvent)
    requires tag.events.Some? && j < |tag.events.value|
    requires IsSet(tag.events.value[j].flags, e) && IsButtonEvent(e)
    ensures ButtonModeSet(host) in WiringAt(tag.symbolId, host, receiver, tag.events.value, j).effects
  {
    var evs := tag.events.value;
    WireFlagsButton(host, evs[j].flags, HandlerAt(tag.symbolId, host, receiver, evs, j));
  }

  /** The outer loop makes compile calls, button-mode calls and
      registrations of clip-action handlers, and nothing else. */
  lemma {:induction false} WirePrefixKinds(symbolId: nat, host: Avm1Heap.HostId, receiver: Option<Avm1Heap.ObjId>, events: seq<SwfEvent>, ws: seq<Wiring>, n: nat)
    requires Wired(symbolId, host, receiver, events, ws) && n <= |events|
    ensures forall eff :: eff in WirePrefix(symbolId, events, ws, n).effects ==>
      eff.ActionsCompiled? || eff == ButtonModeSet(host) || (eff.AddListener? && eff.listener.ClipHandler?)
    decreases n
  {
    if n > 0 {
      WirePrefixKinds(symbolId, host, receiver, events, ws, n - 1);
    }
  }

  /** A clip action with a stage bit leaves a pending stage entry. */
  lemma StagePendingIf(symbolId: nat, host: Avm1Heap.HostId, receiver: Option<Avm1Heap.ObjId>, events: seq<SwfEvent>, j: nat, e: ClipEvent)
    requires j < |events| && IsSet(events[j].flags, e) && IsStageName(Mapping(e))
    ensures WireActions(symbolId, host, receiver, events).stage != []
  {
    var ws := BitLoops(symbolId, host, receiver, events);
    var h := HandlerAt(symbolId, host, receiver, events, j);
    var flags := events[j].flags;
    StageEvents(e);
    WireFlagsStage(host, flags, h, Mapping(e));
    var p := StageListener(Mapping(e).text, h);
    WireFlagsPending(host, flags, h, p);
    assert p in ws[j].stage;
    WirePrefixStage(symbolId, events, ws, |events|, p);
  }

  /** A pending stage entry comes from a clip action with a stage bit. */
  lemma StagePendingOnlyIf(symbolId: nat, host: Avm1Heap.HostId, receiver: Option<Avm1Heap.ObjId>, events: seq<SwfEvent>)
    requires WireActions(symbolId, host, receiver, events).stage != []
    ensures exists j, e :: 0 <= j < |events| && IsSet(events[j].flags, e) && IsStageName(Mapping(e))
  {
    var ws := BitLoops(symbolId, host, receiver, events);
    var p := WirePrefix(symbolId, events, ws, |events|).stage[0];
    WirePrefixStage(symbolId, events, ws, |events|, p);
    var k :| 0 <= k < |events| && p in ws[k].stage;
    var h := HandlerAt(symbolId, host, receiver, events, k);
    var flags := events[k].flags;
    assert p in WireFlags(host, flags, h).stage;
    WireFlagsPending(host, flags, h, p);
    WireFlagsStage(host, flags, h, Named(p.eventName));
    var e :| IsSet(flags, e) && IsStageEvent(e) && Mapping(e) == Named(p.eventName);
    StageEvents(e);
    assert 0 <= k < |events| && IsSet(events[k].flags, e) && IsStageName(Mapping(e));
  }

  /** A teardown listener is added exactly when some clip action listens on
      the stage. */
  lemma ClipActionTeardown(host: Avm1Heap.HostId, receiver: Option<Avm1Heap.ObjId>, tag: PlaceObject)
    requires tag.events.Some?
    ensures var evs := tag.events.value;
      var pending := WireActions(tag.symbolId, host, receiver, evs).stage;
      TeardownListen(host, pending) in ClipActions(host, receiver, tag).0 <==>
        exists j, e :: 0 <= j < |evs| && IsSet(evs[j].flags, e) && IsStageName(Mapping(e))
  {
    var evs := tag.events.value;
    var pending := WireActions(tag.symbolId, host, receiver, evs).stage;
    WirePrefixKinds(tag.symbolId, host, receiver, evs, BitLoops(tag.symbolId, host, receiver, evs), |evs|);
    if pending != [] {
      StagePendingOnlyIf(tag.symbolId, host, receiver, evs);
    }
    if exists j, e :: 0 <= j < |evs| && IsSet(evs[j].flags, e) && IsStageName(Mapping(e)) {
      var j, e :| 0 <= j < |evs| && IsSet(evs[j].flags, e) && IsStageName(Mapping(e));
      StagePendingIf(tag.symbolId, host, receiver, evs, j, e);
    }
  }

  /** The pending list holds exactly the stage registrations the clip
      actions' handlers made. */
  lemma ClipActionPending(host: Avm1Heap.HostId, receiver: Option<Avm1Heap.ObjId>, tag: PlaceObject, p: StageListener)
    requires tag.events.Some?
    ensures var evs := tag.events.value;
      var pending := WireActions(tag.symbolId, host, receiver, evs).stage;
      p in pending <==>
        (exists j :: 0 <= j < |evs| && p.handler == HandlerAt(tag.symbolId, host, receiver, evs, j))
        && AddListener(Stage, Named(p.eventName), p.handler) in ClipActions(host, receiver, tag).0
  {
    var evs := tag.events.value;
    var ws := BitLoops(tag.symbolId, host, receiver, evs);
    var eff := AddListener(Stage, Named(p.eventName), p.handler);
    WirePrefixStage(tag.symbolId, evs, ws, |evs|, p);
    if p in WirePrefix(tag.symbolId, evs, ws, |evs|).stage {
      var k :| 0 <= k < |evs| && p in ws[k].stage;
      var h := HandlerAt(tag.symbolId, host, receiver, evs, k);
      assert p in WireFlags(host, evs[k].flags, h).stage;
      WireFlagsPending(host, evs[k].flags, h, p);
      ClipActionListeners(host, receiver, tag, k, eff);
    }
    if exists j :: 0 <= j < |evs| && p.handler == HandlerAt(tag.symbolId, host, receiver, evs, j) {
      var j :| 0 <= j < |evs| && p.handler == HandlerAt(tag.symbolId, host, receiver, evs, j);
      WireFlagsPending(host, evs[j].flags, p.handler, p);
      ClipActionListeners(host, receiver, tag, j, eff);
      if eff in ClipActions(host, receiver, tag).0 {
        assert p in ws[j].stage;
      }
    }
  }

  /** Placing the symbol again, from the tag the first placement left
      behind, compiles nothing and hands every clip action the unit compiled
      the first time. */
  lemma CompileOnce(host: Avm1Heap.HostId, receiver: Option<Avm1Heap.ObjId>, host2: Avm1Heap.HostId, receiver2: Option<Avm1Heap.ObjId>, tag: PlaceObject)
    requires tag.events.Some?
    ensures var tag1 := ClipActions(host, receiver, tag).1;
      var evs := tag.events.value;
      ClipActions(host2, receiver2, tag1).1 == tag1
      && (forall k :: ActionsCompiled(k) !in ClipActions(host2, receiver2, tag1).0)
      && forall j :: 0 <= j < |evs| ==>
           Compile(tag.symbolId, j, tag1.events.value[j]).0 == Compile(tag.symbolId, j, evs[j]).0
  {
    var tag1 := ClipActions(host, receiver, tag).1;
    var evs1 := tag1.events.value;
    var wp := WireActions(tag.symbolId, host2, receiver2, evs1);
    assert wp.events == evs1;
    forall k
      ensures ActionsCompiled(k) !in ClipActions(host2, receiver2, tag1).0
    {
      NoCompiles(tag.symbolId, host2, receiver2, evs1, BitLoops(tag.symbolId, host2, receiver2, evs1), |evs1|, k);
    }
  }

  /** Clip actions without raw bytes make no compile call. */
  lemma {:induction false} NoCompiles(symbolId: nat, host: Avm1Heap.HostId, receiver: Option<Avm1Heap.ObjId>, events: seq<SwfEvent>, ws: seq<Wiring>, n: nat, k: UnitKey)
    requires Wired(symbolId, host, receiver, events, ws) && n <= |events|
    requires forall j :: 0 <= j < |events| ==> events[j].raw.None?
    ensures ActionsCompiled(k) !in WirePrefix(symbolId, events, ws, n).effects
    decreases n
  {
    if n > 0 {
      NoCompiles(symbolId, host, receiver, events, ws, n - 1, k);
      assert ActionsCompiled(k) !in ws[n - 1].effects;
    }
  }

  // ----- The removedFromStage teardown -----

  /** The teardown as written: it passes `stageListeners[i].fn`, a field the
      entries do not have, so every removal names `undefined` as the listener. */
  function RemoveStageListenersAsWritten(pending: seq<StageListener>): (r: seq<Effect>)
    ensures |r| == |pending|
    ensures forall i :: 0 <= i < |r| ==> r[i] == RemoveListener(Stage, Named(pending[i].eventName), NoListener)
    decreases |pending|
  {
    if pending == [] then []
    else [RemoveListener(Stage, Named(pending[0].eventName), NoListener)] + RemoveStageListenersAsWritten(pending[1..])
  }

  /** The teardown as evidently intended: remove each entry's `handler`. */
  function RemoveStageListeners(pending: seq<StageListener>): (r: seq<Effect>)
    ensures |r| == |pending|
    ensures forall i :: 0 <= i < |r| ==> r[i] == RemoveListener(Stage, Named(pending[i].eventName), pending[i].handler)
    decreases |pending|
  {
    if pending == [] then []
    else [RemoveListener(Stage, Named(pending[0].eventName), pending[0].handler)] + RemoveStageListeners(pending[1..])
  }

  function StageRegistrations(pending: seq<StageListener>): set<Registration> {
    set p | p in pending :: Registration(Stage, Named(p.eventName), p.handler)
  }

  /** Running the corrected teardown removes exactly the pending stage
      registrations and nothing else. */
  lemma {:induction false} RemoveStageListenersClears(regs: set<Registration>, pending: seq<StageListener>)
    ensures Replay(regs, RemoveStageListeners(pending)) == regs - StageRegistrations(pending)
    decreases |pending|
  {
    if pending != [] {
      var p := pending[0];
      var t := RemoveStageListeners(pending);
      assert t[0] == RemoveListener(Stage, Named(p.eventName), p.handler);
      assert t[1..] == RemoveStageListeners(pending[1..]);
      RemoveStageListenersClears(regs - {Registration(Stage, Named(p.eventName), p.handler)}, pending[1..]);
      assert StageRegistrations(pending) == {Registration(Stage, Named(p.eventName), p.handler)} + StageRegistrations(pending[1..]) by {
        assert forall q :: q in pending <==> q == p || q in pending[1..];
      }
    }
  }

  /** Running the teardown as written removes nothing that was registered
      with a real listener function. */
  lemma {:induction false} RemoveStageListenersAsWrittenKeeps(regs: set<Registration>, pending: seq<StageListener>)
    ensures forall reg :: reg in regs && !reg.listener.NoListener? ==> reg in Replay(regs, RemoveStageListenersAsWritten(pending))
    decreases |pending|
  {
    if pending != [] {
      var t := RemoveStageListenersAsWritten(pending);
      var regs1 := regs - {Registration(Stage, Named(pending[0].eventName), NoListener)};
      assert t[0] == RemoveListener(Stage, Named(pending[0].eventName), NoListener);
      assert t[1..] == RemoveStageListenersAsWritten(pending[1..]);
      assert Replay(regs, t) == Replay(regs1, t[1..]);
      RemoveStageListenersAsWrittenKeeps(regs1, pending[1..]);
    }
  }

  /** The clip actions remove no listener. */
  lemma {:induction false} ClipActionsRemoveNothing(host: Avm1Heap.HostId, receiver: Option<Avm1Heap.ObjId>, tag: PlaceObject)
    ensures var effs := ClipActions(host, receiver, tag).0;
      forall i :: 0 <= i < |effs| ==> !effs[i].RemoveListener?
  {
    var effs := ClipActions(host, receiver, tag).0;
    if tag.events.Some? {
      WirePrefixKinds(tag.symbolId, host, receiver, tag.events.value, BitLoops(tag.symbolId, host, receiver, tag.events.value), |tag.events.value|);
    }
    forall i | 0 <= i < |effs|
      ensures !effs[i].RemoveListener?
    {
      assert effs[i] in effs;
    }
  }

  /** As written, a clip whose clip actions listen on the stage is still
      listened for on the stage after it leaves the stage: every pending
      stage registration survives the teardown. */
  lemma TeardownAsWrittenKeepsStageListeners(host: Avm1Heap.HostId, receiver: Option<Avm1Heap.ObjId>, tag: PlaceObject, regs: set<Registration>, p: StageListener)
    requires tag.events.Some?
    requires p in WireActions(tag.symbolId, host, receiver, tag.events.value).stage
    ensures var effs := ClipActions(host, receiver, tag).0;
      var pending := WireActions(tag.symbolId, host, receiver, tag.events.value).stage;
      Registration(Stage, Named(p.eventName), p.handler) in Replay(regs, effs + RemoveStageListenersAsWritten(pending))
  {
    var evs := tag.events.value;
    var effs := ClipActions(host, receiver, tag).0;
    var pending := WireActions(tag.symbolId, host, receiver, evs).stage;
    ClipActionPending(host, receiver, tag, p);
    var j :| 0 <= j < |evs| && p.handler == HandlerAt(tag.symbolId, host, receiver, evs, j);
    var i :| 0 <= i < |effs| && effs[i] == AddListener(Stage, Named(p.eventName), p.handler);
    ClipActionsRemoveNothing(host, receiver, tag);
    ReplayGrows(regs, effs);
    ReplayAppend(regs, effs, RemoveStageListenersAsWritten(pending));
    RemoveStageListenersAsWrittenKeeps(Replay(regs, effs), pending);
  }

  /** With the corrected teardown, no pending stage registration survives. */
  lemma TeardownRemovesStageListeners(host: Avm1Heap.HostId, receiver: Option<Avm1Heap.ObjId>, tag: PlaceObject, regs: set<Registration>, p: StageListener)
    requires tag.events.Some?
    requires p in WireActions(tag.symbolId, host, receiver, tag.events.value).stage
    ensures var effs := ClipActions(host, receiver, tag).0;
      var pending := WireActions(tag.symbolId, host, receiver, tag.events.value).stage;
      Registration(Stage, Named(p.eventName), p.handler) !in Replay(regs, effs + RemoveStageListeners(pending))
  {
    var evs := tag.events.value;
    var effs := ClipActions(host, receiver, tag).0;
    var pending := WireActions(tag.symbolId, host, receiver, evs).stage;
    ReplayAppend(regs, effs, RemoveStageListeners(pending));
    RemoveStageListenersClears(Replay(regs, effs), pending);
  }

  /** A clip action with only the MouseMove bit (8) registers on the stage,
      so its clip gets a teardown listener and a pending stage entry. */
  lemma MouseMoveHasPendingStageListener(symbolId: nat, host: Avm1Heap.HostId, receiver: Option<Avm1Heap.ObjId>, raw: seq<nat>)
    ensures var tag := PlaceObject(symbolId, None, Some([SwfEvent(8, Some(raw), None)]));
      var h := ClipHandler(host, 0, Some(ActionsData(UnitKey(symbolId, 0), raw)), receiver);
      AddListener(Stage, Named("mouseMove"), h) in ClipActions(host, receiver, tag).0
      && StageListener("mouseMove", h) in WireActions(symbolId, host, receiver, tag.events.value).stage
  {
    var tag := PlaceObject(symbolId, None, Some([SwfEvent(8, Some(raw), None)]));
    var h := ClipHandler(host, 0, Some(ActionsData(UnitKey(symbolId, 0), raw)), receiver);
    assert IsSet(8, MouseMove);
    ClipActionRegistrations(host, receiver, tag, 0, Named("mouseMove"));
    ClipActionPending(host, receiver, tag, StageListener("mouseMove", h));
  }

  /** The Press bit is 0x400. */
  lemma PressBit()
    ensures IsSet(0x400, Press) && !IsSet(0x400, MouseDown)
  {
  }

  /** A set Press bit is routed to the stage's "mouseDown", not to the clip. */
  lemma PressListensOnStage(host: Avm1Heap.HostId, receiver: Option<Avm1Heap.ObjId>, tag: PlaceObject, j: nat)
    requires tag.events.Some? && j < |tag.events.value| && IsSet(tag.events.value[j].flags, Press)
    ensures var h := HandlerAt(tag.symbolId, host, receiver, tag.events.value, j);
      AddListener(Stage, Named("mouseDown"), h) in ClipActions(host, receiver, tag).0
      && AddListener(HostTarget(host), Named("mouseDown"), h) !in ClipActions(host, receiver, tag).0
  {
    assert Mapping(Press) == Named("mouseDown") && IsStageName(Mapping(Press));
    ClipActionRegistrations(host, receiver, tag, j, Named("mouseDown"));
  }

  /** RollOver and RollOut bits (0x2000 | 0x4000) are both set in 0x6000. */
  lemma RollOverRollOutBits()
    ensures IsSet(0x6000, RollOver) && IsSet(0x6000, RollOut)
  {
  }

  /** RollOver and RollOut bits put the clip into button mode. */
  lemma RollOverSetsButtonMode(symbolId: nat, host: Avm1Heap.HostId, receiver: Option<Avm1Heap.ObjId>, raw: seq<nat>)
    ensures ButtonModeSet(host) in ClipActions(host, receiver, PlaceObject(symbolId, None, Some([SwfEvent(0x6000, Some(raw), None)]))).0
  {
    var tag := PlaceObject(symbolId, None, Some([SwfEvent(0x6000, Some(raw), None)]));
    var evs := tag.events.value;
    RollOverRollOutBits();
    assert 0 <= 0 < |evs| && IsSet(evs[0].flags, RollOver) && IsButtonEvent(RollOver);
    ClipActionButtonMode(host, receiver, tag);
  }

  /** A set bit whose event type is not a stage type listens on the clip. */
  lemma ClipListensFor(host: Avm1Heap.HostId, receiver: Option<Avm1Heap.ObjId>, tag: PlaceObject, j: nat, e: ClipEvent)
    requires tag.events.Some? && j < |tag.events.value|
    requires IsSet(tag.events.value[j].flags, e) && !IsStageName(Mapping(e))
    ensures AddListener(HostTarget(host), Mapping(e), HandlerAt(tag.symbolId, host, receiver, tag.events.value, j))
      in ClipActions(host, receiver, tag).0
  {
    ClipActionRegistrations(host, receiver, tag, j, Mapping(e));
  }

  /** With RollOver set, a clip action listens on the clip for "mouseOver". */
  lemma RollOverListens(host: Avm1Heap.HostId, receiver: Option<Avm1Heap.ObjId>, tag: PlaceObject)
    requires tag.events.Some? && |tag.events.value| == 1 && tag.events.value[0].flags == 0x6000
    ensures AddListener(HostTarget(host), Named("mouseOver"), HandlerAt(tag.symbolId, host, receiver, tag.events.value, 0))
      in ClipActions(host, receiver, tag).0
  {
    RollOverRollOutBits();
    assert Mapping(RollOver) == Named("mouseOver") && !IsStageName(Mapping(RollOver));
    ClipListensFor(host, receiver, tag, 0, RollOver);
  }

  /** With RollOut set, a clip action listens on the clip for "mouseOut". */
  lemma RollOutListens(host: Avm1Heap.HostId, receiver: Option<Avm1Heap.ObjId>, tag: PlaceObject)
    requires tag.events.Some? && |tag.events.value| == 1 && tag.events.value[0].flags == 0x6000
    ensures AddListener(HostTarget(host), Named("mouseOut"), HandlerAt(tag.symbolId, host, receiver, tag.events.value, 0))
      in ClipActions(host, receiver, tag).0
  {
    RollOverRollOutBits();
    assert Mapping(RollOut) == Named("mouseOut") && !IsStageName(Mapping(RollOut));
    ClipListensFor(host, receiver, tag, 0, RollOut);
  }
}
