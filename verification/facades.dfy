/** The one-façade-per-display-object cache: `createAVM1NativeObject` and
    `getAVM1Object` (AVM1Utils.ts lines 230-271), with
    `AVM1SymbolBase.initAVM1SymbolInstance` and `isAVM1Instance` (lines
    46-61).

    A host display object carries the set of host classes it is an instance
    of, the AVM1 symbol class of its timeline symbol, and `_as2Object`, the
    cached façade. The constructor call at the end of creation runs AVM1
    script, which is outside the model; it is recorded in the trace.
 */
module Facades {
  import opened Wrappers
  import opened Avm1Heap
  import opened Effects

  /** The host classes `getAVM1Object` tests for, in the order it tests them. */
  datatype HostClass = MovieClipClass | SimpleButtonClass | TextFieldClass | BitmapDataClass

  datatype HostObject = HostObject(
    types: set<HostClass>,
    /** `_avm1SymbolClass`: the AVM1 class registered for the clip's symbol. */
    symbolClass: Option<ObjId>,
    /** `_as2Object`: the façade created for this object, once there is one. */
    as2: Option<ObjId>)

  /** The AVM1 constructors of `context.globals` the bridge uses. */
  datatype Globals = Globals(movieClip: ObjId, button: ObjId, textField: ObjId)

  datatype Context = Context(caseSensitive: bool, globals: Globals)

  datatype World = World(heap: Heap, hosts: map<HostId, HostObject>, trace: seq<Effect>)

  /** Every cached façade is an object of the heap that stands for its host. */
  predicate Coherent(w: World) {
    Wf(w.heap)
    && forall id :: id in w.hosts && w.hosts[id].as2.Some? ==>
      w.hosts[id].as2.value in w.heap.objects && w.heap.objects[w.hosts[id].as2.value].as3 == Some(id)
  }

  /** The walk of `createAVM1NativeObject` from `ctor.prototype` along
      `alPrototype` links to the first object that can initialise a symbol
      instance. A walk that reaches `null`, `undefined` or a primitive ends
      with `Object.create`/`initAVM1SymbolInstance` throwing. */
  function SymbolPrototype(h: Heap, start: Value, fuel: nat): (r: Result<ObjId>)
    ensures r.Ok? ==> r.value in h.objects && h.objects[r.value].symbolBase
    decreases fuel
  {
    if !IsObject(h, start) then Err(MissingSymbolPrototype)
    else if h.objects[start.id].symbolBase then Ok(start.id)
    else if fuel == 0 then Err(MissingSymbolPrototype)
    else match h.objects[start.id].proto
      case None => Err(MissingSymbolPrototype)
      case Some(p) => SymbolPrototype(h, Ref(p), fuel - 1)
  }

  /** The `n`-th object of the chain from `id` can initialise a symbol
      instance. */
  predicate SymbolAt(h: Heap, id: ObjId, n: nat) {
    ChainAt(h, id, n).Some? && h.objects[ChainAt(h, id, n).value].symbolBase
  }

  lemma SymbolStep(h: Heap, id: ObjId, p: ObjId)
    requires id in h.objects && h.objects[id].proto == Some(p)
    ensures forall n: nat {:trigger SymbolAt(h, p, n)} :: SymbolAt(h, id, n + 1) == SymbolAt(h, p, n)
  {
    forall n: nat ensures SymbolAt(h, id, n + 1) == SymbolAt(h, p, n) {
      assert ChainAt(h, id, n + 1) == ChainAt(h, p, n);
    }
  }

  /** The prototype the walk settles on is the nearest object of the chain,
      within `fuel` links of `start`, that can initialise a symbol instance. */
  lemma {:induction false} SymbolPrototypeNearest(h: Heap, start: Value, fuel: nat)
    requires SymbolPrototype(h, start, fuel).Ok?
    ensures start.Ref?
    ensures exists n: nat :: n <= fuel && ChainAt(h, start.id, n) == Some(SymbolPrototype(h, start, fuel).value)
              && forall m: nat :: m < n ==> !SymbolAt(h, start.id, m)
    decreases fuel
  {
    var id := start.id;
    if h.objects[id].symbolBase {
      assert ChainAt(h, id, 0) == Some(id);
    } else {
      var p := h.objects[id].proto.value;
      SymbolPrototypeNearest(h, Ref(p), fuel - 1);
      var n: nat :| n <= fuel - 1 && ChainAt(h, p, n) == Some(SymbolPrototype(h, Ref(p), fuel - 1).value)
                    && forall m: nat :: m < n ==> !SymbolAt(h, p, m);
      SymbolStep(h, id, p);
      assert ChainAt(h, id, n + 1) == ChainAt(h, p, n);
      assert !SymbolAt(h, id, 0);
      forall m: nat | m < n + 1 ensures !SymbolAt(h, id, m) {
        if m > 0 { assert SymbolAt(h, id, m) == SymbolAt(h, p, m - 1); }
      }
    }
  }

  /** A walk that fails started from something that is not an object, or
      passed over every object within `fuel` links without finding one that
      can initialise a symbol instance. */
  lemma {:induction false} SymbolPrototypeComplete(h: Heap, start: Value, fuel: nat)
    requires SymbolPrototype(h, start, fuel).Err?
    ensures IsObject(h, start) ==> forall n: nat :: n <= fuel ==> !SymbolAt(h, start.id, n)
    decreases fuel
  {
    if IsObject(h, start) {
      var id := start.id;
      if fuel > 0 && h.objects[id].proto.Some? {
        var p := h.objects[id].proto.value;
        SymbolPrototypeComplete(h, Ref(p), fuel - 1);
        SymbolStep(h, id, p);
        forall n: nat | n <= fuel ensures !SymbolAt(h, id, n) {
          if n > 0 { assert SymbolAt(h, id, n) == SymbolAt(h, p, n - 1); }
        }
      } else {
        forall n: nat | n <= fuel ensures !SymbolAt(h, id, n) {
          if n > 0 { assert ChainAt(h, id, n).None?; }
        }
      }
    }
  }

  /** More fuel never changes a walk that found its prototype: the bound
      only cuts off chains that the source would walk forever. */
  lemma {:induction false} SymbolPrototypeFuel(h: Heap, start: Value, fuel: nat, more: nat)
    requires SymbolPrototype(h, start, fuel).Ok? && fuel <= more
    ensures SymbolPrototype(h, start, more) == SymbolPrototype(h, start, fuel)
    decreases fuel
  {
    if IsObject(h, start) && !h.objects[start.id].symbolBase {
      SymbolPrototypeFuel(h, Ref(h.objects[start.id].proto.value), fuel - 1, more - 1);
    }
  }

  /** `ctor.alGetPrototypeProperty()`. */
  function PrototypeProperty(ctx: Context, h: Heap, ctor: ObjId): Value {
    Get(h, ctx.caseSensitive, ctor, "prototype")
  }

  /** The façade `createAVM1NativeObject` builds before calling the
      constructor: a symbol instance of `host`, whose AVM1 prototype is
      `ctor.prototype` itself (not the object the walk stopped at) and whose
      own constructor is `ctor`. */
  function NewFacade(ctx: Context, h: Heap, ctor: ObjId, host: HostId): Obj {
    var proto := PrototypeProperty(ctx, h, ctor);
    Obj(map[], if proto.Ref? then Some(proto.id) else None, Some(ctor), PlainObject, true, Some(host))
  }

  /** The world at the moment `ctor.alCall(avm1Object)` starts: the façade
      exists and is already cached on its host. */
  function StateAtConstructorCall(ctx: Context, w: World, ctor: ObjId, host: HostId): (r: Result<(World, ObjId)>)
    requires host in w.hosts
    ensures r.Ok? <==> SymbolPrototype(w.heap, PrototypeProperty(ctx, w.heap, ctor), w.heap.next).Ok?
    ensures r.Ok? ==> r.value.1 == w.heap.next && r.value.0.heap.next == w.heap.next + 1
    ensures r.Ok? ==> r.value.0.hosts == w.hosts[host := w.hosts[host].(as2 := Some(r.value.1))]
    ensures r.Ok? ==> r.value.0.heap.objects == w.heap.objects[r.value.1 := NewFacade(ctx, w.heap, ctor, host)]
    ensures r.Ok? ==> r.value.0.trace == w.trace
    ensures r.Ok? && Coherent(w) ==> Coherent(r.value.0) && r.value.1 !in w.heap.objects
  {
    var _ :- SymbolPrototype(w.heap, PrototypeProperty(ctx, w.heap, ctor), w.heap.next);
    var (h, id) := Alloc(w.heap, NewFacade(ctx, w.heap, ctor, host));
    Ok((World(h, w.hosts[host := w.hosts[host].(as2 := Some(id))], w.trace), id))
  }

  /** `createAVM1NativeObject(ctor, nativeObject)`: build the façade, cache it
      on the host object, then call the constructor on it. */
  function CreateNativeObject(ctx: Context, w: World, ctor: ObjId, host: HostId): (r: Result<(World, ObjId)>)
    requires host in w.hosts
    ensures r.Ok? <==> SymbolPrototype(w.heap, PrototypeProperty(ctx, w.heap, ctor), w.heap.next).Ok?
    ensures r.Ok? ==> var (w', id) := r.value;
      w'.hosts == w.hosts[host := w.hosts[host].(as2 := Some(id))]
      && id in w'.heap.objects && w'.heap.objects[id].as3 == Some(host)
      && w'.heap.objects[id].ctor == Some(ctor) && w'.heap.objects[id].symbolBase
      && w'.trace == w.trace + [ConstructorCalled(ctor, id)]
    ensures r.Ok? && Wf(w.heap) ==> var w' := r.value.0;
      forall k :: k in w.heap.objects ==> k in w'.heap.objects && w'.heap.objects[k] == w.heap.objects[k]
    ensures r.Ok? && Coherent(w) ==> Coherent(r.value.0) && r.value.1 !in w.heap.objects
  {
    var (w1, id) :- StateAtConstructorCall(ctx, w, ctor, host);
    Ok((w1.(trace := w1.trace + [ConstructorCalled(ctor, id)]), id))
  }

  /** `isAVM1Instance`: the façade stands for a host object. */
  predicate IsAvm1Instance(h: Heap, id: ObjId) {
    id in h.objects && h.objects[id].as3.Some?
  }

  /** The constructor `getAVM1Object` picks for a host object without a
      façade: movie clips first (their symbol class if they have one), then
      buttons, then text fields. */
  function ConstructorFor(ctx: Context, o: HostObject): Option<ObjId> {
    if MovieClipClass in o.types then
      (if o.symbolClass.Some? then o.symbolClass else Some(ctx.globals.movieClip))
    else if SimpleButtonClass in o.types then Some(ctx.globals.button)
    else if TextFieldClass in o.types then Some(ctx.globals.textField)
    else None
  }

  /** `getAVM1Object(as3Object)`. `null`/`undefined` and host objects of no
      handled class give `null`; a cached façade is returned as is; otherwise
      a façade is created with the constructor `ConstructorFor` picks. For a
      BitmapData the source evaluates `new as3Object` on an instance, which
      throws in JavaScript. */
  function GetAvm1Object(ctx: Context, w: World, as3: Option<HostId>): (r: Result<(World, Option<ObjId>)>)
    requires as3.Some? ==> as3.value in w.hosts
    ensures as3.None? ==> r == Ok((w, None))
    ensures as3.Some? && w.hosts[as3.value].as2.Some? ==> r == Ok((w, w.hosts[as3.value].as2))
    ensures r.Ok? && r.value.1.None? ==> r.value.0 == w
    ensures r.Ok? && r.value.1.None? && as3.Some? ==>
      w.hosts[as3.value].as2.None? && ConstructorFor(ctx, w.hosts[as3.value]).None?
      && BitmapDataClass !in w.hosts[as3.value].types
    ensures as3.Some? && w.hosts[as3.value].as2.None? && ConstructorFor(ctx, w.hosts[as3.value]).None? ==>
      r == (if BitmapDataClass in w.hosts[as3.value].types then Err(NotAConstructor) else Ok((w, None)))
    ensures as3.Some? && w.hosts[as3.value].as2.None? && ConstructorFor(ctx, w.hosts[as3.value]).Some? ==>
      r == (var c := ConstructorFor(ctx, w.hosts[as3.value]).value;
            var made :- CreateNativeObject(ctx, w, c, as3.value); Ok((made.0, Some(made.1))))
    ensures r.Ok? && as3.Some? ==> r.value.0.hosts.Keys == w.hosts.Keys
    ensures r.Ok? && Coherent(w) ==> Coherent(r.value.0)
    ensures r.Ok? && r.value.1.Some? && Coherent(w) ==>
      IsAvm1Instance(r.value.0.heap, r.value.1.value) && r.value.0.heap.objects[r.value.1.value].as3 == as3
  {
    match as3
    case None => Ok((w, None))
    case Some(host) =>
      var o := w.hosts[host];
      if o.as2.Some? then Ok((w, o.as2))
      else match ConstructorFor(ctx, o)
        case Some(c) =>
          var made :- CreateNativeObject(ctx, w, c, host);
          Ok((made.0, Some(made.1)))
        case None =>
          if BitmapDataClass in o.types then Err(NotAConstructor) else Ok((w, None))
  }

  /** A host object that only the BitmapData test of `getAVM1Object`
      matches: no cached façade and none of the classes with a constructor. */
  predicate BitmapDataOnly(ctx: Context, w: World, host: HostId) {
    host in w.hosts && w.hosts[host].as2.None? && ConstructorFor(ctx, w.hosts[host]).None?
    && BitmapDataClass in w.hosts[host].types
  }

  /** As written, the BitmapData branch evaluates `new as3Object` on the
      instance itself, which is not a constructor, so the lookup throws. */
  lemma BitmapDataAsWrittenThrows(ctx: Context, w: World, host: HostId)
    requires BitmapDataOnly(ctx, w, host)
    ensures GetAvm1Object(ctx, w, Some(host)) == Err(NotAConstructor)
  {
  }

  /** The object the BitmapData branch evidently means to return: a fresh
      AVM1 object standing for the host bitmap. Its AVM1 class is outside the
      model, so it is a plain object. */
  function BitmapFacade(host: HostId): Obj {
    Obj(map[], None, None, PlainObject, false, Some(host))
  }

  /** `getAVM1Object` with the BitmapData branch allocating a fresh object
      instead of throwing; every other branch is the one written. The branch
      writes no `_as2Object`, so the new object is not cached. */
  function GetAvm1ObjectIntended(ctx: Context, w: World, as3: Option<HostId>): (r: Result<(World, Option<ObjId>)>)
    requires as3.Some? ==> as3.value in w.hosts
    ensures !(as3.Some? && BitmapDataOnly(ctx, w, as3.value)) ==> r == GetAvm1Object(ctx, w, as3)
    ensures as3.Some? && BitmapDataOnly(ctx, w, as3.value) ==>
      r == Ok((w.(heap := Heap(w.heap.objects[w.heap.next := BitmapFacade(as3.value)], w.heap.next + 1)), Some(w.heap.next)))
  {
    if as3.Some? && BitmapDataOnly(ctx, w, as3.value) then
      var (h, id) := Alloc(w.heap, BitmapFacade(as3.value));
      Ok((w.(heap := h), Some(id)))
    else GetAvm1Object(ctx, w, as3)
  }

  /** With the corrected branch a BitmapData gets a fresh façade that stands
      for it, the cache and the trace are untouched, no existing object
      changes, and heap coherence is kept. */
  lemma BitmapDataIntendedFresh(ctx: Context, w: World, host: HostId)
    requires Coherent(w) && BitmapDataOnly(ctx, w, host)
    ensures GetAvm1ObjectIntended(ctx, w, Some(host)).Ok?
    ensures var (w1, f) := GetAvm1ObjectIntended(ctx, w, Some(host)).value;
      f.Some? && f.value !in w.heap.objects && IsAvm1Instance(w1.heap, f.value)
      && w1.heap.objects[f.value].as3 == Some(host)
      && w1.hosts == w.hosts && w1.trace == w.trace && Coherent(w1)
      && forall k :: k in w.heap.objects ==> k in w1.heap.objects && w1.heap.objects[k] == w.heap.objects[k]
  {
    var (h, id) := Alloc(w.heap, BitmapFacade(host));
    assert id !in w.heap.objects;
  }

  /** Asking again for the façade of the same host object gives the same
      façade and changes nothing: no second constructor call. */
  lemma GetTwiceSame(ctx: Context, w: World, host: HostId)
    requires host in w.hosts
    requires GetAvm1Object(ctx, w, Some(host)).Ok?
    ensures var (w1, f) := GetAvm1Object(ctx, w, Some(host)).value;
      GetAvm1Object(ctx, w1, Some(host)) == Ok((w1, f))
  {
  }

  /** A lookup made by the AVM1 constructor while it runs already finds the
      façade under construction, because the cache is written before the
      call. */
  lemma ReentrantLookup(ctx: Context, w: World, host: HostId)
    requires host in w.hosts && w.hosts[host].as2.None?
    requires ConstructorFor(ctx, w.hosts[host]).Some?
    requires StateAtConstructorCall(ctx, w, ConstructorFor(ctx, w.hosts[host]).value, host).Ok?
    ensures var (mid, id) := StateAtConstructorCall(ctx, w, ConstructorFor(ctx, w.hosts[host]).value, host).value;
      GetAvm1Object(ctx, mid, Some(host)) == Ok((mid, Some(id)))
      && GetAvm1Object(ctx, w, Some(host)).Ok?
      && GetAvm1Object(ctx, w, Some(host)).value.1 == Some(id)
  {
  }

  /** A host object that is both a movie clip and a button (or text field) is
      given a movie-clip façade. */
  lemma MovieClipWins(ctx: Context, o: HostObject)
    requires MovieClipClass in o.types
    ensures ConstructorFor(ctx, o) == (if o.symbolClass.Some? then o.symbolClass else Some(ctx.globals.movieClip))
    ensures o.symbolClass.None? ==> ConstructorFor(ctx, o) != Some(ctx.globals.button) || ctx.globals.button == ctx.globals.movieClip
  {
  }

  /** Two different host objects never share a façade created by
      `getAVM1Object`. */
  lemma DistinctHostsDistinctFacades(ctx: Context, w: World, a: HostId, b: HostId)
    requires Coherent(w) && a in w.hosts && b in w.hosts && a != b
    requires GetAvm1Object(ctx, w, Some(a)).Ok? && GetAvm1Object(ctx, w, Some(a)).value.1.Some?
    ensures var w1 := GetAvm1Object(ctx, w, Some(a)).value.0;
      GetAvm1Object(ctx, w1, Some(b)).Ok? && GetAvm1Object(ctx, w1, Some(b)).value.1.Some? ==>
        GetAvm1Object(ctx, w1, Some(b)).value.1 != GetAvm1Object(ctx, w, Some(a)).value.1
  {
    var (w1, fa) := GetAvm1Object(ctx, w, Some(a)).value;
    assert Coherent(w1);
    assert w1.heap.objects[fa.value].as3 == Some(a);
    var r := GetAvm1Object(ctx, w1, Some(b));
    if r.Ok? && r.value.1.Some? {
      var (w2, fb) := r.value;
      assert w2.heap.objects[fb.value].as3 == Some(b);
      assert fa.value in w2.heap.objects && w2.heap.objects[fa.value] == w1.heap.objects[fa.value] by {
        if w1.hosts[b].as2.None? && ConstructorFor(ctx, w1.hosts[b]).Some? {
          var c := ConstructorFor(ctx, w1.hosts[b]).value;
          assert CreateNativeObject(ctx, w1, c, b).Ok?;
        }
      }
      assert w2.heap.objects[fa.value].as3 != w2.heap.objects[fb.value].as3;
    }
  }
}
