/** The host (JavaScript/AVM2) side of native-member wrapping: plain JS objects
    with own property descriptors and a `__proto__` link, as walked by
    `getMemberDescriptor` and read by `obj[name]` in `wrapAVM1NativeMembers`
    (AVM1Utils.ts lines 288-297, 306-308).
 */
module HostRealm {
  import opened Wrappers

  type JsId = nat

  datatype JsValue =
    | JsUndefined
    | JsNull
    | JsPrim(text: string)
    | JsFunction(name: string)
    | JsObject(id: JsId)
    /** What a host getter returned when `obj[name]` hit an accessor; calling
        host getters is outside the model, so the value stays symbolic. */
    | JsGetterResult(getter: JsValue)

  datatype JsDescriptor =
    | JsData(value: JsValue)
    | JsAccessor(getter: JsValue, setter: JsValue)

  datatype JsObj = JsObj(own: map<string, JsDescriptor>, proto: Option<JsId>)

  /** Host objects by id; every id in use is below `next`. */
  datatype Realm = Realm(objects: map<JsId, JsObj>, next: nat)

  /** `null` and `undefined`, the values `isNullOrUndefined` accepts. */
  predicate IsNullish(v: JsValue) {
    v.JsUndefined? || v.JsNull?
  }

  /** First own descriptor for `name` on `id` or an object on its `__proto__`
      chain, walking at most `fuel` links. */
  function FindDescriptor(realm: Realm, id: JsId, name: string, fuel: nat): (r: Option<JsDescriptor>)
    ensures r.Some? ==> exists k :: k in realm.objects && name in realm.objects[k].own && realm.objects[k].own[name] == r.value
    decreases fuel
  {
    if id !in realm.objects then None
    else if name in realm.objects[id].own then Some(realm.objects[id].own[name])
    else if fuel == 0 then None
    else match realm.objects[id].proto
      case None => None
      case Some(p) => FindDescriptor(realm, p, name, fuel - 1)
  }

  /** The object `n` links up the `__proto__` chain from `id`, if the chain
      is that long. */
  function Ancestor(realm: Realm, id: JsId, n: nat): (r: Option<JsId>)
    ensures r.Some? ==> r.value in realm.objects
    decreases n
  {
    if id !in realm.objects then None
    else if n == 0 then Some(id)
    else match realm.objects[id].proto
      case None => None
      case Some(p) => Ancestor(realm, p, n - 1)
  }

  /** The own descriptor for `name` on the `n`-th object of the chain. */
  function OwnAt(realm: Realm, id: JsId, name: string, n: nat): Option<JsDescriptor> {
    match Ancestor(realm, id, n)
    case None => None
    case Some(a) => if name in realm.objects[a].own then Some(realm.objects[a].own[name]) else None
  }

  lemma AncestorStep(realm: Realm, id: JsId, p: JsId, name: string)
    requires id in realm.objects && realm.objects[id].proto == Some(p)
    ensures forall n: nat {:trigger OwnAt(realm, p, name, n)} :: OwnAt(realm, id, name, n + 1) == OwnAt(realm, p, name, n)
  {
    forall n: nat ensures OwnAt(realm, id, name, n + 1) == OwnAt(realm, p, name, n) {
      assert Ancestor(realm, id, n + 1) == Ancestor(realm, p, n);
    }
  }

  /** A descriptor the walk finds is the own descriptor of some object within
      `fuel` links, and no nearer object on the chain has one: the nearest
      definition shadows the others. */
  lemma {:induction false} FindDescriptorNearest(realm: Realm, id: JsId, name: string, fuel: nat)
    requires FindDescriptor(realm, id, name, fuel).Some?
    ensures exists n: nat :: n <= fuel && OwnAt(realm, id, name, n) == FindDescriptor(realm, id, name, fuel)
              && forall m: nat :: m < n ==> OwnAt(realm, id, name, m).None?
    decreases fuel
  {
    if name in realm.objects[id].own {
      assert OwnAt(realm, id, name, 0) == FindDescriptor(realm, id, name, fuel);
    } else {
      var p := realm.objects[id].proto.value;
      FindDescriptorNearest(realm, p, name, fuel - 1);
      var n: nat :| n <= fuel - 1 && OwnAt(realm, p, name, n) == FindDescriptor(realm, p, name, fuel - 1)
                    && forall m: nat :: m < n ==> OwnAt(realm, p, name, m).None?;
      AncestorStep(realm, id, p, name);
      assert OwnAt(realm, id, name, 0).None?;
      assert OwnAt(realm, id, name, n + 1) == FindDescriptor(realm, id, name, fuel);
      forall m: nat | m < n + 1 ensures OwnAt(realm, id, name, m).None? {
        if m > 0 { assert OwnAt(realm, id, name, m) == OwnAt(realm, p, name, m - 1); }
      }
    }
  }

  /** A walk that finds nothing has passed over every object within `fuel`
      links of `id` without an own descriptor for `name`. */
  lemma {:induction false} FindDescriptorComplete(realm: Realm, id: JsId, name: string, fuel: nat)
    requires FindDescriptor(realm, id, name, fuel).None?
    ensures forall n: nat :: n <= fuel ==> OwnAt(realm, id, name, n).None?
    decreases fuel
  {
    if id in realm.objects && fuel > 0 && realm.objects[id].proto.Some? {
      var p := realm.objects[id].proto.value;
      FindDescriptorComplete(realm, p, name, fuel - 1);
      AncestorStep(realm, id, p, name);
      forall n: nat | n <= fuel ensures OwnAt(realm, id, name, n).None? {
        if n > 0 { assert OwnAt(realm, id, name, n) == OwnAt(realm, p, name, n - 1); }
      }
    } else {
      forall n: nat | n <= fuel ensures OwnAt(realm, id, name, n).None? {
        if n > 0 { assert Ancestor(realm, id, n).None?; }
      }
    }
  }

  /** `getMemberDescriptor(name)`: the chain walk starting at `id`. */
  function MemberDescriptor(realm: Realm, id: JsId, name: string): Option<JsDescriptor> {
    FindDescriptor(realm, id, name, realm.next)
  }

  /** `obj[name]`: the value of the nearest descriptor, `undefined` when none. */
  function Get(realm: Realm, id: JsId, name: string): (v: JsValue)
    ensures MemberDescriptor(realm, id, name).None? ==> v == JsUndefined
    ensures MemberDescriptor(realm, id, name).Some? && MemberDescriptor(realm, id, name).value.JsData? ==>
      v == MemberDescriptor(realm, id, name).value.value
    ensures MemberDescriptor(realm, id, name).Some? && MemberDescriptor(realm, id, name).value.JsAccessor? ==>
      var g := MemberDescriptor(realm, id, name).value.getter;
      v == (if IsNullish(g) then JsUndefined else JsGetterResult(g))
  {
    match MemberDescriptor(realm, id, name)
    case None => JsUndefined
    case Some(JsData(v)) => v
    case Some(JsAccessor(g, _)) => if IsNullish(g) then JsUndefined else JsGetterResult(g)
  }
}
