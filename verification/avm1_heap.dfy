/** The AVM1 object model the bridge works over: an arena of objects with
    descriptor maps and an `alPrototype` link, and the property primitives
    (`alHasProperty`, `alGet`, `alSetOwnProperty`) that AVM1Utils.ts calls.

    Those primitives live in AVM1Object, which is not part of this model;
    they are stated here as the usual AVM1 rules: a lookup canonicalises the
    name for the context, checks own descriptors, then walks the prototype
    chain. The walk is bounded by `next` (every id in use is below it), so a
    cyclic chain ends the walk instead of looping.
 */
module Avm1Heap {
  import opened Wrappers
  import opened Names
  import opened HostRealm

  type ObjId = nat

  /** Identity of a host (AVM2) display object. */
  type HostId = nat

  /** The code behind an AVM1 function: a script function, or an
      `AVM1NativeFunction` around a host function, with or without the
      context-prefixing adapter of `wrapFunction`. */
  datatype Code = Script(id: nat) | Native(fn: JsValue, prefixed: bool)

  datatype Value =
    | Undefined
    | Null
    | Prim(text: string)
    /** A raw host value stored without conversion. */
    | Foreign(raw: JsValue)
    | Ref(id: ObjId)

  /** AVM1PropertyFlags, as a set of independent flags. */
  datatype Flag = DataFlag | AccessorFlag | DontDelete | DontEnum | ReadOnly

  datatype Descriptor =
    | Data(value: Value, flags: set<Flag>)
    | Accessor(getter: Value, setter: Value, flags: set<Flag>)

  /** Which AVM1 class an object is an instance of, as far as the bridge's
      `instanceof` tests care. */
  datatype Kind =
    | PlainObject
    | FunctionObject(code: Code)
    | ArrayNative(items: seq<Value>)

  datatype Obj = Obj(
    props: map<string, Descriptor>,
    proto: Option<ObjId>,
    /** The own constructor back-link set by `alSetOwnConstructorProperty`. */
    ctor: Option<ObjId>,
    kind: Kind,
    /** True when the object's JavaScript prototype carries
        `initAVM1SymbolInstance` (it is, or inherits from, AVM1SymbolBase). */
    symbolBase: bool,
    /** `_as3Object`: the host display object a façade stands for. */
    as3: Option<HostId>)

  datatype Heap = Heap(objects: map<ObjId, Obj>, next: nat)

  /** Every object id in use lies below the allocation counter. */
  predicate Wf(h: Heap) {
    forall id :: id in h.objects ==> id < h.next
  }

  function EmptyObject(kind: Kind): Obj {
    Obj(map[], None, None, kind, false, None)
  }

  function FindOwnOrInherited(h: Heap, id: ObjId, key: string, fuel: nat): (r: Option<Descriptor>)
    ensures r.Some? ==> exists k :: k in h.objects && key in h.objects[k].props && h.objects[k].props[key] == r.value
    decreases fuel
  {
    if id !in h.objects then None
    else if key in h.objects[id].props then Some(h.objects[id].props[key])
    else if fuel == 0 then None
    else match h.objects[id].proto
      case None => None
      case Some(p) => FindOwnOrInherited(h, p, key, fuel - 1)
  }

  /** The object `n` links up the `alPrototype` chain from `id`, if the
      chain is that long. */
  function ChainAt(h: Heap, id: ObjId, n: nat): (r: Option<ObjId>)
    ensures r.Some? ==> r.value in h.objects
    decreases n
  {
    if id !in h.objects then None
    else if n == 0 then Some(id)
    else match h.objects[id].proto
      case None => None
      case Some(p) => ChainAt(h, p, n - 1)
  }

  /** The own descriptor under `key` on the `n`-th object of the chain. */
  function PropAt(h: Heap, id: ObjId, key: string, n: nat): Option<Descriptor> {
    match ChainAt(h, id, n)
    case None => None
    case Some(a) => if key in h.objects[a].props then Some(h.objects[a].props[key]) else None
  }

  lemma ChainStep(h: Heap, id: ObjId, p: ObjId, key: string)
    requires id in h.objects && h.objects[id].proto == Some(p)
    ensures forall n: nat {:trigger PropAt(h, p, key, n)} :: PropAt(h, id, key, n + 1) == PropAt(h, p, key, n)
  {
    forall n: nat ensures PropAt(h, id, key, n + 1) == PropAt(h, p, key, n) {
      assert ChainAt(h, id, n + 1) == ChainAt(h, p, n);
    }
  }

  /** A descriptor the walk finds is the own descriptor of some object within
      `fuel` links, and no nearer object on the chain has one. */
  lemma {:induction false} FindNearest(h: Heap, id: ObjId, key: string, fuel: nat)
    requires FindOwnOrInherited(h, id, key, fuel).Some?
    ensures exists n: nat :: n <= fuel && PropAt(h, id, key, n) == FindOwnOrInherited(h, id, key, fuel)
              && forall m: nat :: m < n ==> PropAt(h, id, key, m).None?
    decreases fuel
  {
    if key in h.objects[id].props {
      assert PropAt(h, id, key, 0) == FindOwnOrInherited(h, id, key, fuel);
    } else {
      var p := h.objects[id].proto.value;
      FindNearest(h, p, key, fuel - 1);
      var n: nat :| n <= fuel - 1 && PropAt(h, p, key, n) == FindOwnOrInherited(h, p, key, fuel - 1)
                    && forall m: nat :: m < n ==> PropAt(h, p, key, m).None?;
      ChainStep(h, id, p, key);
      assert PropAt(h, id, key, 0).None?;
      assert PropAt(h, id, key, n + 1) == FindOwnOrInherited(h, id, key, fuel);
      forall m: nat | m < n + 1 ensures PropAt(h, id, key, m).None? {
        if m > 0 { assert PropAt(h, id, key, m) == PropAt(h, p, key, m - 1); }
      }
    }
  }

  /** A walk that finds nothing has passed over every object within `fuel`
      links of `id` without an own descriptor under `key`. */
  lemma {:induction false} FindComplete(h: Heap, id: ObjId, key: string, fuel: nat)
    requires FindOwnOrInherited(h, id, key, fuel).None?
    ensures forall n: nat :: n <= fuel ==> PropAt(h, id, key, n).None?
    decreases fuel
  {
    if id in h.objects && fuel > 0 && h.objects[id].proto.Some? {
      var p := h.objects[id].proto.value;
      FindComplete(h, p, key, fuel - 1);
      ChainStep(h, id, p, key);
      forall n: nat | n <= fuel ensures PropAt(h, id, key, n).None? {
        if n > 0 { assert PropAt(h, id, key, n) == PropAt(h, p, key, n - 1); }
      }
    } else {
      forall n: nat | n <= fuel ensures PropAt(h, id, key, n).None? {
        if n > 0 { assert ChainAt(h, id, n).None?; }
      }
    }
  }

  /** The descriptor `name` resolves to on `id`, own first, then inherited. */
  function Lookup(h: Heap, caseSensitive: bool, id: ObjId, name: string): Option<Descriptor> {
    FindOwnOrInherited(h, id, Normalize(caseSensitive, name), h.next)
  }

  /** `alHasProperty`. */
  predicate HasProperty(h: Heap, caseSensitive: bool, id: ObjId, name: string) {
    Lookup(h, caseSensitive, id, name).Some?
  }

  /** `alGet`. Calling an accessor's getter runs script or host code, which is
      outside the model: an accessor reads as `undefined`. */
  function Get(h: Heap, caseSensitive: bool, id: ObjId, name: string): (v: Value)
    ensures !HasProperty(h, caseSensitive, id, name) ==> v == Undefined
    ensures Lookup(h, caseSensitive, id, name).Some? && Lookup(h, caseSensitive, id, name).value.Data? ==>
      v == Lookup(h, caseSensitive, id, name).value.value
    ensures Lookup(h, caseSensitive, id, name).Some? && Lookup(h, caseSensitive, id, name).value.Accessor? ==> v == Undefined
  {
    match Lookup(h, caseSensitive, id, name)
    case Some(Data(v, _)) => v
    case _ => Undefined
  }

  /** `x instanceof AVM1Object`. */
  predicate IsObject(h: Heap, v: Value) {
    v.Ref? && v.id in h.objects
  }

  /** `x instanceof AVM1Function`. */
  predicate IsFunction(h: Heap, v: Value) {
    IsObject(h, v) && h.objects[v.id].kind.FunctionObject?
  }

  /** The element list of `x` when `x instanceof AVM1ArrayNative`. */
  function ArrayItems(h: Heap, v: Value): Option<seq<Value>> {
    if IsObject(h, v) && h.objects[v.id].kind.ArrayNative? then Some(h.objects[v.id].kind.items) else None
  }

  /** Allocates `o` under a fresh id. */
  function Alloc(h: Heap, o: Obj): (r: (Heap, ObjId))
    ensures r.1 == h.next && r.0.next == h.next + 1
    ensures r.0.objects == h.objects[r.1 := o]
    ensures Wf(h) ==> Wf(r.0) && r.1 !in h.objects
  {
    (Heap(h.objects[h.next := o], h.next + 1), h.next)
  }

  /** `alSetOwnProperty(name, d)`: the own descriptor under the canonical key
      becomes `d`; nothing else changes. */
  function SetOwn(h: Heap, caseSensitive: bool, id: ObjId, name: string, d: Descriptor): (r: Heap)
    requires id in h.objects
    ensures r.next == h.next && r.objects.Keys == h.objects.Keys
    ensures Lookup(r, caseSensitive, id, name) == Some(d)
    ensures r.objects[id].props.Keys == h.objects[id].props.Keys + {Normalize(caseSensitive, name)}
    ensures r.objects[id].ctor == h.objects[id].ctor && r.objects[id].as3 == h.objects[id].as3
    ensures r.objects[id].proto == h.objects[id].proto && r.objects[id].kind == h.objects[id].kind
    ensures forall k :: k in h.objects && k != id ==> r.objects[k] == h.objects[k]
    ensures forall key :: key in h.objects[id].props && key != Normalize(caseSensitive, name) ==>
      key in r.objects[id].props && r.objects[id].props[key] == h.objects[id].props[key]
  {
    var o := h.objects[id];
    h.(objects := h.objects[id := o.(props := o.props[Normalize(caseSensitive, name) := d])])
  }
}
