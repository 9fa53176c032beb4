/** `wrapAVM1NativeMembers` (AVM1Utils.ts lines 273-336): exposing members
    of a host object on an AVM1 object as non-enumerable, non-deletable
    properties.

    A member name ending in `#` maps an AVM1 accessor property onto the host
    object's `getX`/`setX` methods; any other name copies the host member's
    value, wrapping functions as AVM1 native functions. Host accessors are
    refused (and skipped), as are names the host object lacks.
 */
module NativeWrap {
  import opened Wrappers
  import opened Names
  import opened HostRealm
  import opened Avm1Heap

  const AccessorFlags: set<Flag> := {AccessorFlag, DontDelete, DontEnum}
  const DataFlags: set<Flag> := {DataFlag, DontDelete, DontEnum}

  /** `wrapFunction(fn)`: `undefined` for `null`/`undefined`, otherwise a new
      AVM1 native function around `fn`, with the context-prefixing adapter
      when `prefixed`. */
  function WrapFunction(h: Heap, fn: JsValue, prefixed: bool): (r: (Heap, Value))
    ensures IsNullish(fn) ==> r == (h, Undefined)
    ensures !IsNullish(fn) ==> (r.1 == Ref(h.next) && r.0.next == h.next + 1
      && IsFunction(r.0, r.1) && r.0.objects[h.next].kind.code == Native(fn, prefixed))
    ensures forall k :: k in h.objects && k != h.next ==> k in r.0.objects && r.0.objects[k] == h.objects[k]
    ensures Wf(h) ==> Wf(r.0) && r.0.objects.Keys >= h.objects.Keys
  {
    if IsNullish(fn) then (h, Undefined)
    else
      var (h1, id) := Alloc(h, EmptyObject(FunctionObject(Native(fn, prefixed))));
      (h1, Ref(id))
  }

  /** `v` is what `wrapFunction(fn)` gives. */
  predicate WrappedAs(h: Heap, v: Value, fn: JsValue, prefixed: bool) {
    if IsNullish(fn) then v == Undefined
    else IsFunction(h, v) && h.objects[v.id].kind.code == Native(fn, prefixed)
  }

  predicate IsPropertyMapping(name: string) {
    |name| > 0 && name[|name| - 1] == '#'
  }

  /** `memberName.slice(1, -1)`: empty when the name is a lone `#`. */
  function Middle(name: string): string {
    if |name| >= 2 then name[1..|name| - 1] else ""
  }

  function GetterName(name: string): string
    requires |name| > 0
  {
    "get" + [UpperChar(name[0])] + Middle(name)
  }

  function SetterName(name: string): string
    requires |name| > 0
  {
    "set" + [UpperChar(name[0])] + Middle(name)
  }

  /** The AVM1 property name a member is installed under. */
  function KeyOf(name: string): string {
    if IsPropertyMapping(name) then name[..|name| - 1] else name
  }

  /** The name `x#` installs `x`, backed by `getX` and `setX`. */
  lemma {:induction false} PropertyMappingNames(c: char, mid: string)
    ensures var name := [c] + mid + "#";
      IsPropertyMapping(name) && KeyOf(name) == [c] + mid
      && GetterName(name) == "get" + [UpperChar(c)] + mid
      && SetterName(name) == "set" + [UpperChar(c)] + mid
  {
    var name := [c] + mid + "#";
    assert name[..|name| - 1] == [c] + mid;
    assert name[0] == c;
    assert Middle(name) == mid by {
      if |mid| > 0 {
        assert name[1..|name| - 1] == mid;
      }
    }
  }

  /** The value a plain member copies: `desc.value`, which an accessor
      descriptor does not have. */
  function DescriptorValue(d: JsDescriptor): JsValue {
    if d.JsData? then d.value else JsUndefined
  }

  /** The plain member is left out: the host object has no such member, or it
      is a host accessor with a getter or setter. */
  predicate Skipped(realm: Realm, obj: JsId, name: string) {
    !IsPropertyMapping(name)
    && match MemberDescriptor(realm, obj, name)
       case None => true
       case Some(JsData(_)) => false
       case Some(JsAccessor(g, s)) => !IsNullish(g) || !IsNullish(s)
  }

  /** A host value as AVM1 sees it: `undefined`, `null` and primitives are
      shared by both sides, anything else is kept as a host value. */
  function FromHost(v: JsValue): (r: Value)
    ensures r.Foreign? <==> !(v.JsUndefined? || v.JsNull? || v.JsPrim?)
    ensures r.Foreign? ==> r.raw == v
  {
    match v
    case JsUndefined => Undefined
    case JsNull => Null
    case JsPrim(t) => Prim(t)
    case _ => Foreign(v)
  }

  /** `d` is the descriptor that wrapping member `name` installs: for `x#`
      a non-enumerable, non-deletable accessor over the wrapped `getX` and
      `setX`; otherwise a non-enumerable, non-deletable data property
      holding the host value, functions wrapped. */
  predicate InstalledAs(h: Heap, realm: Realm, obj: JsId, name: string, prefixed: bool, d: Descriptor) {
    if IsPropertyMapping(name) then
      AccessorOver(h, HostRealm.Get(realm, obj, GetterName(name)), HostRealm.Get(realm, obj, SetterName(name)), prefixed, d)
    else
      MemberDescriptor(realm, obj, name).Some?
      && DataOver(h, DescriptorValue(MemberDescriptor(realm, obj, name).value), prefixed, d)
  }

  /** `d` is the accessor installed over host getter `getter` and setter `setter`. */
  predicate AccessorOver(h: Heap, getter: JsValue, setter: JsValue, prefixed: bool, d: Descriptor) {
    d.Accessor? && d.flags == AccessorFlags
    && WrappedAs(h, d.getter, getter, prefixed) && WrappedAs(h, d.setter, setter, prefixed)
  }

  /** `d` is the data property installed for host value `value`. */
  predicate DataOver(h: Heap, value: JsValue, prefixed: bool, d: Descriptor) {
    d.Data? && d.flags == DataFlags
    && if value.JsFunction? then WrappedAs(h, d.value, value, prefixed) else d.value == FromHost(value)
  }

  /** Every object of `h` is still there with the same kind in `r`. */
  predicate KindsKept(h: Heap, r: Heap) {
    forall k :: k in h.objects ==> k in r.objects && r.objects[k].kind == h.objects[k].kind
  }

  /** Whether a descriptor is the one a member installs depends only on the
      kinds of the objects it refers to. */
  lemma InstalledAsKept(h: Heap, r: Heap, realm: Realm, obj: JsId, name: string, prefixed: bool, d: Descriptor)
    requires KindsKept(h, r) && InstalledAs(h, realm, obj, name, prefixed, d)
    ensures InstalledAs(r, realm, obj, name, prefixed, d)
  {
  }

  /** The two wrapped functions of a property mapping, allocated in turn, and
      the accessor over them. */
  function WrapAccessor(h: Heap, getter: JsValue, setter: JsValue, prefixed: bool): (r: (Heap, Descriptor))
    requires Wf(h)
    ensures Wf(r.0) && r.0.next >= h.next && KindsKept(h, r.0)
    ensures forall k :: k in h.objects ==> k in r.0.objects && r.0.objects[k] == h.objects[k]
    ensures AccessorOver(r.0, getter, setter, prefixed, r.1)
  {
    var (h1, g) := WrapFunction(h, getter, prefixed);
    var (h2, s) := WrapFunction(h1, setter, prefixed);
    assert WrappedAs(h2, g, getter, prefixed);
    (h2, Accessor(g, s, AccessorFlags))
  }

  /** The accessor a property mapping installs under `key`, over the host's
      getter and setter values. */
  function InstallMapping(h: Heap, cs: bool, wrap: ObjId, key: string, getter: JsValue, setter: JsValue, prefixed: bool): (r: Heap)
    requires Wf(h) && wrap in h.objects
    ensures Wf(r) && wrap in r.objects && r.next >= h.next && KindsKept(h, r)
    ensures forall k :: k in h.objects && k != wrap ==> k in r.objects && r.objects[k] == h.objects[k]
    ensures r.objects[wrap].proto == h.objects[wrap].proto
    ensures r.objects[wrap].props.Keys == h.objects[wrap].props.Keys + {Normalize(cs, key)}
    ensures AccessorOver(r, getter, setter, prefixed, r.objects[wrap].props[Normalize(cs, key)])
    ensures forall k :: k in h.objects[wrap].props && k != Normalize(cs, key) ==>
      k in r.objects[wrap].props && r.objects[wrap].props[k] == h.objects[wrap].props[k]
  {
    var (h2, d) := WrapAccessor(h, getter, setter, prefixed);
    var r := SetOwn(h2, cs, wrap, key, d);
    assert KindsKept(h2, r);
    r
  }

  /** The data descriptor for a host value, wrapping it when it is a function. */
  function WrapValue(h: Heap, value: JsValue, prefixed: bool): (r: (Heap, Descriptor))
    requires Wf(h)
    ensures Wf(r.0) && r.0.next >= h.next && KindsKept(h, r.0)
    ensures forall k :: k in h.objects ==> k in r.0.objects && r.0.objects[k] == h.objects[k]
    ensures DataOver(r.0, value, prefixed, r.1)
  {
    if value.JsFunction? then
      var (h1, v) := WrapFunction(h, value, prefixed);
      (h1, Data(v, DataFlags))
    else (h, Data(FromHost(value), DataFlags))
  }

  /** The data property a plain member installs under `key` for the host
      value `value`. */
  function InstallData(h: Heap, cs: bool, wrap: ObjId, key: string, value: JsValue, prefixed: bool): (r: Heap)
    requires Wf(h) && wrap in h.objects
    ensures Wf(r) && wrap in r.objects && r.next >= h.next && KindsKept(h, r)
    ensures forall k :: k in h.objects && k != wrap ==> k in r.objects && r.objects[k] == h.objects[k]
    ensures r.objects[wrap].proto == h.objects[wrap].proto
    ensures r.objects[wrap].props.Keys == h.objects[wrap].props.Keys + {Normalize(cs, key)}
    ensures DataOver(r, value, prefixed, r.objects[wrap].props[Normalize(cs, key)])
    ensures forall k :: k in h.objects[wrap].props && k != Normalize(cs, key) ==>
      k in r.objects[wrap].props && r.objects[wrap].props[k] == h.objects[wrap].props[k]
  {
    var (h1, d) := WrapValue(h, value, prefixed);
    var r := SetOwn(h1, cs, wrap, key, d);
    assert KindsKept(h1, r);
    r
  }

  /** The per-member step of `wrapAVM1NativeMembers`: the member's key gets
      the descriptor `InstalledAs` describes, unless the member is skipped;
      every other property and every other object stays as it was. */
  function WrapMember(h: Heap, cs: bool, realm: Realm, obj: JsId, wrap: ObjId, name: string, prefixed: bool): (r: Heap)
    requires Wf(h) && wrap in h.objects
    ensures Wf(r) && wrap in r.objects && r.next >= h.next && KindsKept(h, r)
    ensures forall k :: k in h.objects && k != wrap ==> k in r.objects && r.objects[k] == h.objects[k]
    ensures r.objects[wrap].proto == h.objects[wrap].proto && r.objects[wrap].kind == h.objects[wrap].kind
    ensures r.objects[wrap].props.Keys == h.objects[wrap].props.Keys
      + (if Skipped(realm, obj, name) then {} else {Normalize(cs, KeyOf(name))})
    ensures Skipped(realm, obj, name) ==> r == h
    ensures !Skipped(realm, obj, name) ==>
      InstalledAs(r, realm, obj, name, prefixed, r.objects[wrap].props[Normalize(cs, KeyOf(name))])
    ensures forall key :: key in h.objects[wrap].props && key != Normalize(cs, KeyOf(name)) ==>
      key in r.objects[wrap].props && r.objects[wrap].props[key] == h.objects[wrap].props[key]
  {
    if IsPropertyMapping(name) then
      InstallMapping(h, cs, wrap, KeyOf(name), HostRealm.Get(realm, obj, GetterName(name)),
        HostRealm.Get(realm, obj, SetterName(name)), prefixed)
    else if Skipped(realm, obj, name) then h
    else InstallData(h, cs, wrap, name, DescriptorValue(MemberDescriptor(realm, obj, name).value), prefixed)
  }

  /** The AVM1 property names the members of `members` install. */
  function InstalledKeys(cs: bool, realm: Realm, obj: JsId, members: seq<string>): set<string> {
    set m | m in members && !Skipped(realm, obj, m) :: Normalize(cs, KeyOf(m))
  }

  lemma InstalledKeysCons(cs: bool, realm: Realm, obj: JsId, members: seq<string>)
    requires members != []
    ensures InstalledKeys(cs, realm, obj, members)
      == (if Skipped(realm, obj, members[0]) then {} else {Normalize(cs, KeyOf(members[0]))})
        + InstalledKeys(cs, realm, obj, members[1..])
  {
    assert forall m :: m in members <==> m == members[0] || m in members[1..];
  }

  /** `members[i]` is the last member of the list that installs `key`. */
  predicate LastInstall(cs: bool, realm: Realm, obj: JsId, members: seq<string>, key: string, i: int) {
    0 <= i < |members| && !Skipped(realm, obj, members[i]) && Normalize(cs, KeyOf(members[i])) == key
    && forall j :: i < j < |members| ==> Skipped(realm, obj, members[j]) || Normalize(cs, KeyOf(members[j])) != key
  }

  /** The last installer of `key` in the tail is the last one in the whole list. */
  lemma LastInstallShift(cs: bool, realm: Realm, obj: JsId, members: seq<string>, key: string, i: int)
    requires members != [] && LastInstall(cs, realm, obj, members[1..], key, i)
    ensures LastInstall(cs, realm, obj, members, key, i + 1)
  {
    assert members[i + 1] == members[1..][i];
    forall j | i + 1 < j < |members|
      ensures Skipped(realm, obj, members[j]) || Normalize(cs, KeyOf(members[j])) != key
    {
      assert members[j] == members[1..][j - 1];
    }
  }

  /** The head installs `key` last when no later member installs it. */
  lemma LastInstallHead(cs: bool, realm: Realm, obj: JsId, members: seq<string>, key: string)
    requires members != [] && !Skipped(realm, obj, members[0]) && Normalize(cs, KeyOf(members[0])) == key
    requires key !in InstalledKeys(cs, realm, obj, members[1..])
    ensures LastInstall(cs, realm, obj, members, key, 0)
  {
    forall j | 0 < j < |members|
      ensures Skipped(realm, obj, members[j]) || Normalize(cs, KeyOf(members[j])) != key
    {
      assert members[j] in members[1..] by { assert members[j] == members[1..][j - 1]; }
    }
  }

  function WrapEach(h: Heap, cs: bool, realm: Realm, obj: JsId, wrap: ObjId, members: seq<string>, prefixed: bool): (r: Heap)
    requires Wf(h) && wrap in h.objects
    ensures Wf(r) && wrap in r.objects && r.next >= h.next && KindsKept(h, r)
    ensures forall k :: k in h.objects && k != wrap ==> k in r.objects && r.objects[k] == h.objects[k]
    ensures r.objects[wrap].proto == h.objects[wrap].proto && r.objects[wrap].kind == h.objects[wrap].kind
    ensures r.objects[wrap].props.Keys == h.objects[wrap].props.Keys + InstalledKeys(cs, realm, obj, members)
    ensures forall key :: key in h.objects[wrap].props && key !in InstalledKeys(cs, realm, obj, members) ==>
      key in r.objects[wrap].props && r.objects[wrap].props[key] == h.objects[wrap].props[key]
    decreases |members|
  {
    if members == [] then h
    else
      InstalledKeysCons(cs, realm, obj, members);
      var h1 := WrapMember(h, cs, realm, obj, wrap, members[0], prefixed);
      var r := WrapEach(h1, cs, realm, obj, wrap, members[1..], prefixed);
      assert KindsKept(h, r) by { assert KindsKept(h, h1) && KindsKept(h1, r); }
      r
  }

  /** Each key the members install ends up holding the descriptor its last
      member installs: a later member of the same key overwrites an earlier
      one. */
  lemma {:induction false} WrapEachInstalls(h: Heap, cs: bool, realm: Realm, obj: JsId, wrap: ObjId, members: seq<string>, prefixed: bool)
    requires Wf(h) && wrap in h.objects
    ensures var r := WrapEach(h, cs, realm, obj, wrap, members, prefixed);
      forall key :: key in InstalledKeys(cs, realm, obj, members) ==>
        exists i :: LastInstall(cs, realm, obj, members, key, i)
          && InstalledAs(r, realm, obj, members[i], prefixed, r.objects[wrap].props[key])
    decreases |members|
  {
    if members != [] {
      var tail := members[1..];
      var h1 := WrapMember(h, cs, realm, obj, wrap, members[0], prefixed);
      var r := WrapEach(h1, cs, realm, obj, wrap, tail, prefixed);
      assert r == WrapEach(h, cs, realm, obj, wrap, members, prefixed);
      WrapEachInstalls(h1, cs, realm, obj, wrap, tail, prefixed);
      InstalledKeysCons(cs, realm, obj, members);
      forall key | key in InstalledKeys(cs, realm, obj, members)
        ensures exists i :: LastInstall(cs, realm, obj, members, key, i)
                   && InstalledAs(r, realm, obj, members[i], prefixed, r.objects[wrap].props[key])
      {
        if key in InstalledKeys(cs, realm, obj, tail) {
          var i :| LastInstall(cs, realm, obj, tail, key, i)
            && InstalledAs(r, realm, obj, tail[i], prefixed, r.objects[wrap].props[key]);
          LastInstallShift(cs, realm, obj, members, key, i);
          assert members[i + 1] == tail[i];
        } else {
          InstalledAsKept(h1, r, realm, obj, members[0], prefixed, h1.objects[wrap].props[key]);
          LastInstallHead(cs, realm, obj, members, key);
        }
      }
    }
  }

  /** `wrapAVM1NativeMembers(context, wrap, obj, members, prefixFunctions)`:
      a missing member list does nothing; otherwise each member is wrapped in
      turn. Exactly the keys of the members that are not skipped are added to
      `wrap`, each holding what the last member of that key installs; the
      other properties of `wrap` and every other object stay as they were. */
  function WrapMembers(h: Heap, cs: bool, realm: Realm, obj: JsId, wrap: ObjId, members: Option<seq<string>>, prefixed: bool): (r: Heap)
    requires Wf(h) && wrap in h.objects
    ensures members.None? ==> r == h
    ensures Wf(r) && wrap in r.objects
    ensures forall k :: k in h.objects && k != wrap ==> k in r.objects && r.objects[k] == h.objects[k]
    ensures members.Some? ==> r.objects[wrap].props.Keys == h.objects[wrap].props.Keys + InstalledKeys(cs, realm, obj, members.value)
    ensures members.Some? ==> forall key :: key in InstalledKeys(cs, realm, obj, members.value) ==>
      exists i :: LastInstall(cs, realm, obj, members.value, key, i)
        && InstalledAs(r, realm, obj, members.value[i], prefixed, r.objects[wrap].props[key])
    ensures members.Some? ==> forall key :: key in h.objects[wrap].props && key !in InstalledKeys(cs, realm, obj, members.value) ==>
      key in r.objects[wrap].props && r.objects[wrap].props[key] == h.objects[wrap].props[key]
  {
    match members
    case None => h
    case Some(ms) =>
      WrapEachInstalls(h, cs, realm, obj, wrap, ms, prefixed);
      WrapEach(h, cs, realm, obj, wrap, ms, prefixed)
  }

  /** A host getter or setter is never exposed by copying: a plain member
      whose host descriptor is an accessor with a getter adds nothing. */
  lemma HostAccessorSkipped(h: Heap, cs: bool, realm: Realm, obj: JsId, wrap: ObjId, name: string, prefixed: bool)
    requires Wf(h) && wrap in h.objects && !IsPropertyMapping(name)
    requires MemberDescriptor(realm, obj, name).Some? && MemberDescriptor(realm, obj, name).value.JsAccessor?
    requires !IsNullish(MemberDescriptor(realm, obj, name).value.getter)
    ensures WrapMember(h, cs, realm, obj, wrap, name, prefixed) == h
  {
  }

  /** A one-member scenario: a host object whose prototype has a `play`
      method; wrapping "play" gives `wrap` a non-enumerable data property
      holding a native function around it. */
  lemma WrapPlayScenario(cs: bool)
    ensures var realm := Realm(map[0 := JsObj(map[], Some(1)), 1 := JsObj(map["play" := JsData(JsFunction("play"))], None)], 2);
      var h := Heap(map[0 := EmptyObject(PlainObject)], 1);
      var r := WrapMember(h, cs, realm, 0, 0, "play", false);
      r.next == 2 && IsFunction(r, Ref(1)) && r.objects[1].kind.code == Native(JsFunction("play"), false)
      && Lookup(r, cs, 0, "play") == Some(Data(Ref(1), DataFlags))
  {
    var realm := Realm(map[0 := JsObj(map[], Some(1)), 1 := JsObj(map["play" := JsData(JsFunction("play"))], None)], 2);
    var h := Heap(map[0 := EmptyObject(PlainObject)], 1);
    assert MemberDescriptor(realm, 0, "play") == Some(JsData(JsFunction("play")));
  }
}
