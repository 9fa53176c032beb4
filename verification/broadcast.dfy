/** The attach rule and the two broadcast functions (AVM1Utils.ts lines
    148-199): `avm1HasEventProperty`, `avm1BroadcastNativeEvent` and
    `avm1BroadcastEvent`.

    Broadcasting runs script through the context (`executeFunction`) or
    through the function object (`alCall`); the model returns the calls in
    the order they are made instead of making them.
 */
module Broadcast {
  import opened Wrappers
  import opened Names
  import opened Avm1Heap

  /** `context.executeFunction(fn, target, args)` versus `fn.alCall(target, args)`. */
  datatype Convention = ExecuteFunction | AlCall

  datatype Call = Call(fn: Value, receiver: ObjId, args: seq<Value>, via: Convention)

  /** The attach rule, `avm1HasEventProperty`: the target holds a function under
      `name`, or its `_listeners` property is an AVM1 array in which some AVM1
      object merely has a property `name` (its value is not inspected). */
  predicate HasEventProperty(h: Heap, caseSensitive: bool, target: ObjId, name: string) {
    (HasProperty(h, caseSensitive, target, name) && IsFunction(h, Get(h, caseSensitive, target, name)))
    || match ArrayItems(h, Get(h, caseSensitive, target, "_listeners"))
       case None => false
       case Some(items) =>
         exists i :: 0 <= i < |items| && IsObject(h, items[i]) && HasProperty(h, caseSensitive, items[i].id, name)
  }

  /** The handler one `_listeners` entry contributes: its `name` property, when
      the entry is an AVM1 object and that property is an AVM1 function. */
  function ListenerHandler(h: Heap, caseSensitive: bool, entry: Value, name: string): (r: Option<Value>)
    ensures r.Some? <==> IsObject(h, entry) && IsFunction(h, Get(h, caseSensitive, entry.id, name))
    ensures r.Some? ==> r.value == Get(h, caseSensitive, entry.id, name) && IsFunction(h, r.value)
    ensures r.Some? ==> HasProperty(h, caseSensitive, entry.id, name)
  {
    if IsObject(h, entry) && IsFunction(h, Get(h, caseSensitive, entry.id, name)) then
      Some(Get(h, caseSensitive, entry.id, name))
    else
      None
  }

  /** The handlers of a `_listeners` array, in array order. */
  function ListenerHandlers(h: Heap, caseSensitive: bool, entries: seq<Value>, name: string): (r: seq<Value>)
    ensures |r| <= |entries|
    ensures forall f :: f in r ==> IsFunction(h, f)
  {
    if entries == [] then []
    else
      (match ListenerHandler(h, caseSensitive, entries[0], name)
       case Some(f) => [f]
       case None => [])
      + ListenerHandlers(h, caseSensitive, entries[1..], name)
  }

  /** The elements of the target's `_listeners`, or none when it is not an AVM1 array. */
  function Listeners(h: Heap, caseSensitive: bool, target: ObjId): seq<Value> {
    match ArrayItems(h, Get(h, caseSensitive, target, "_listeners"))
    case Some(items) => items
    case None => []
  }

  /** The target's own handler, when its `name` property is an AVM1 function. */
  function OwnHandler(h: Heap, caseSensitive: bool, target: ObjId, name: string): seq<Value> {
    var f := Get(h, caseSensitive, target, name);
    if IsFunction(h, f) then [f] else []
  }

  /** Every function a broadcast of `name` on `target` invokes, in call order. */
  function Handlers(h: Heap, caseSensitive: bool, target: ObjId, name: string): seq<Value> {
    OwnHandler(h, caseSensitive, target, name) + ListenerHandlers(h, caseSensitive, Listeners(h, caseSensitive, target), name)
  }

  function Invoke(fns: seq<Value>, target: ObjId, args: seq<Value>, via: Convention): (r: seq<Call>)
    ensures |r| == |fns|
    ensures forall i :: 0 <= i < |r| ==> r[i] == Call(fns[i], target, args, via)
  {
    seq(|fns|, i requires 0 <= i < |fns| => Call(fns[i], target, args, via))
  }

  /** `avm1BroadcastNativeEvent`: every call goes through the context, with
      the target as receiver, and invokes an AVM1 function; the target's own
      handler comes first, then the listeners' handlers. The calls are read
      off `h`, the heap when the broadcast starts: what the handlers
      themselves do to `_listeners` is not evaluated. */
  function BroadcastNativeEvent(h: Heap, caseSensitive: bool, target: ObjId, name: string, args: seq<Value>): (r: seq<Call>)
    ensures forall c :: c in r ==> c.receiver == target && c.args == args && c.via == ExecuteFunction && IsFunction(h, c.fn)
    ensures IsFunction(h, Get(h, caseSensitive, target, name)) ==> |r| > 0 && r[0].fn == Get(h, caseSensitive, target, name)
    ensures |r| <= 1 + |Listeners(h, caseSensitive, target)|
  {
    Invoke(Handlers(h, caseSensitive, target, name), target, args, ExecuteFunction)
  }

  /** `avm1BroadcastEvent`: as `BroadcastNativeEvent`, but each function is
      called through its own `alCall`. */
  function BroadcastEvent(h: Heap, caseSensitive: bool, target: ObjId, name: string, args: seq<Value>): (r: seq<Call>)
    ensures forall c :: c in r ==> c.receiver == target && c.args == args && c.via == AlCall && IsFunction(h, c.fn)
    ensures IsFunction(h, Get(h, caseSensitive, target, name)) ==> |r| > 0 && r[0].fn == Get(h, caseSensitive, target, name)
    ensures |r| <= 1 + |Listeners(h, caseSensitive, target)|
  {
    Invoke(Handlers(h, caseSensitive, target, name), target, args, AlCall)
  }

  /** A function is among the listeners' handlers exactly when some entry
      contributes it. */
  lemma {:induction false} ListenerHandlersMembership(h: Heap, caseSensitive: bool, entries: seq<Value>, name: string, f: Value)
    ensures f in ListenerHandlers(h, caseSensitive, entries, name) <==>
      exists i :: 0 <= i < |entries| && ListenerHandler(h, caseSensitive, entries[i], name) == Some(f)
    decreases |entries|
  {
    if entries != [] {
      ListenerHandlersMembership(h, caseSensitive, entries[1..], name, f);
      if f in ListenerHandlers(h, caseSensitive, entries[1..], name) {
        var i :| 0 <= i < |entries[1..]| && ListenerHandler(h, caseSensitive, entries[1..][i], name) == Some(f);
        assert ListenerHandler(h, caseSensitive, entries[i + 1], name) == Some(f);
      }
      if exists i :: 0 <= i < |entries| && ListenerHandler(h, caseSensitive, entries[i], name) == Some(f) {
        var i :| 0 <= i < |entries| && ListenerHandler(h, caseSensitive, entries[i], name) == Some(f);
        if i > 0 {
          assert entries[1..][i - 1] == entries[i];
        }
      }
    }
  }

  /** Listeners are visited in array order: the handlers of a concatenation
      are the handlers of its parts, in turn. With the one-entry case this
      pins the list down completely. */
  lemma {:induction false} ListenerHandlersAppend(h: Heap, caseSensitive: bool, a: seq<Value>, b: seq<Value>, name: string)
    ensures ListenerHandlers(h, caseSensitive, a + b, name)
      == ListenerHandlers(h, caseSensitive, a, name) + ListenerHandlers(h, caseSensitive, b, name)
    decreases |a|
  {
    if a == [] {
      assert a + b == b;
    } else {
      assert (a + b)[0] == a[0];
      assert (a + b)[1..] == a[1..] + b;
      ListenerHandlersAppend(h, caseSensitive, a[1..], b, name);
    }
  }

  /** One entry contributes its handler, or nothing when it is not an object
      or its property is not a function. */
  lemma ListenerHandlersSingle(h: Heap, caseSensitive: bool, entry: Value, name: string)
    ensures ListenerHandlers(h, caseSensitive, [entry], name)
      == (if IsObject(h, entry) && IsFunction(h, Get(h, caseSensitive, entry.id, name))
          then [Get(h, caseSensitive, entry.id, name)] else [])
  {
    assert [entry][1..] == [];
  }

  function Fns(calls: seq<Call>): (r: seq<Value>)
    ensures |r| == |calls|
    ensures forall i :: 0 <= i < |r| ==> r[i] == calls[i].fn
  {
    seq(|calls|, i requires 0 <= i < |calls| => calls[i].fn)
  }

  /** Both calling conventions invoke the same functions in the same order
      with the same receiver and arguments. */
  lemma BroadcastVariantsAgree(h: Heap, caseSensitive: bool, target: ObjId, name: string, args: seq<Value>)
    ensures |BroadcastNativeEvent(h, caseSensitive, target, name, args)| == |BroadcastEvent(h, caseSensitive, target, name, args)|
    ensures forall i :: 0 <= i < |BroadcastEvent(h, caseSensitive, target, name, args)| ==>
      BroadcastNativeEvent(h, caseSensitive, target, name, args)[i].(via := AlCall) == BroadcastEvent(h, caseSensitive, target, name, args)[i]
  {
  }

  /** The calls after the own handler are exactly the listeners' handlers. */
  lemma BroadcastOrder(h: Heap, caseSensitive: bool, target: ObjId, name: string, args: seq<Value>)
    ensures Fns(BroadcastNativeEvent(h, caseSensitive, target, name, args))
      == OwnHandler(h, caseSensitive, target, name) + ListenerHandlers(h, caseSensitive, Listeners(h, caseSensitive, target), name)
  {
  }

  /** Whenever a broadcast invokes anything, the attach rule holds: a listener
      with a callable handler in particular has the property. */
  lemma BroadcastImpliesAttach(h: Heap, caseSensitive: bool, target: ObjId, name: string, args: seq<Value>)
    requires |BroadcastNativeEvent(h, caseSensitive, target, name, args)| > 0
    ensures HasEventProperty(h, caseSensitive, target, name)
  {
    var own := Get(h, caseSensitive, target, name);
    if !IsFunction(h, own) {
      var entries := Listeners(h, caseSensitive, target);
      var f := Handlers(h, caseSensitive, target, name)[0];
      assert f in ListenerHandlers(h, caseSensitive, entries, name);
      ListenerHandlersMembership(h, caseSensitive, entries, name, f);
      var i :| 0 <= i < |entries| && ListenerHandler(h, caseSensitive, entries[i], name) == Some(f);
      assert HasProperty(h, caseSensitive, entries[i].id, name);
    } else {
      assert HasProperty(h, caseSensitive, target, name);
    }
  }

  /** A heap with a target (0) whose `onPress` is function 1, and whose
      `_listeners` (array 2) holds object 3 with `onPress` = function 4, the
      string "ignored", and object 5 with only `other` = function 6. */
  function OnPressHeap(): Heap {
    Heap(map[
      0 := Obj(map["onPress" := Data(Ref(1), {}), "_listeners" := Data(Ref(2), {})], None, None, PlainObject, false, None),
      1 := EmptyObject(FunctionObject(Script(1))),
      2 := EmptyObject(ArrayNative([Ref(3), Prim("ignored"), Ref(5)])),
      3 := Obj(map["onPress" := Data(Ref(4), {})], None, None, PlainObject, false, None),
      4 := EmptyObject(FunctionObject(Script(4))),
      5 := Obj(map["other" := Data(Ref(6), {})], None, None, PlainObject, false, None),
      6 := EmptyObject(FunctionObject(Script(6)))
    ], 7)
  }

  lemma OnPressTarget()
    ensures Get(OnPressHeap(), true, 0, "onPress") == Ref(1) && IsFunction(OnPressHeap(), Ref(1))
    ensures Listeners(OnPressHeap(), true, 0) == [Ref(3), Prim("ignored"), Ref(5)]
  {
    assert Get(OnPressHeap(), true, 0, "_listeners") == Ref(2);
  }

  lemma OnPressListenerHandlers()
    ensures ListenerHandlers(OnPressHeap(), true, [Ref(3), Prim("ignored"), Ref(5)], "onPress") == [Ref(4)]
  {
    var h := OnPressHeap();
    OnPressFirstEntry();
    OnPressOtherEntries();
    ListenerHandlersAppend(h, true, [Ref(3)], [Prim("ignored")], "onPress");
    ListenerHandlersAppend(h, true, [Ref(3), Prim("ignored")], [Ref(5)], "onPress");
    assert [Ref(3)] + [Prim("ignored")] == [Ref(3), Prim("ignored")];
    assert [Ref(3), Prim("ignored")] + [Ref(5)] == [Ref(3), Prim("ignored"), Ref(5)];
  }

  /** The first listener holds a function under "onPress". */
  lemma OnPressFirstEntry()
    ensures ListenerHandlers(OnPressHeap(), true, [Ref(3)], "onPress") == [Ref(4)]
  {
    assert Get(OnPressHeap(), true, 3, "onPress") == Ref(4);
    ListenerHandlersSingle(OnPressHeap(), true, Ref(3), "onPress");
  }

  /** A primitive entry and an object without "onPress" contribute nothing. */
  lemma OnPressOtherEntries()
    ensures ListenerHandlers(OnPressHeap(), true, [Prim("ignored")], "onPress") == []
    ensures ListenerHandlers(OnPressHeap(), true, [Ref(5)], "onPress") == []
  {
    assert Lookup(OnPressHeap(), true, 5, "onPress") == None;
    ListenerHandlersSingle(OnPressHeap(), true, Prim("ignored"), "onPress");
    ListenerHandlersSingle(OnPressHeap(), true, Ref(5), "onPress");
  }

  /** target.onPress = fnA; target._listeners = [{onPress: fnB}, "ignored",
      {other: fnC}]: the broadcast calls fnA, then fnB, both on the target. */
  lemma OnPressScenario(args: seq<Value>)
    ensures Fns(BroadcastNativeEvent(OnPressHeap(), true, 0, "onPress", args)) == [Ref(1), Ref(4)]
    ensures Fns(BroadcastEvent(OnPressHeap(), true, 0, "onPress", args)) == [Ref(1), Ref(4)]
  {
    OnPressTarget();
    OnPressListenerHandlers();
    assert Handlers(OnPressHeap(), true, 0, "onPress") == [Ref(1), Ref(4)];
  }

  /** The attach rule checks that a listener has the property, not that it is
      callable: a listener whose `onPress` is a string activates the binding,
      yet a broadcast then invokes nothing. */
  lemma AttachRuleIgnoresCallability()
    ensures var h := Heap(map[
        0 := Obj(map["_listeners" := Data(Ref(1), {})], None, None, PlainObject, false, None),
        1 := EmptyObject(ArrayNative([Ref(2)])),
        2 := Obj(map["onPress" := Data(Prim("not a function"), {})], None, None, PlainObject, false, None)
      ], 3);
      HasEventProperty(h, true, 0, "onPress") && BroadcastNativeEvent(h, true, 0, "onPress", []) == []
  {
    var h := Heap(map[
        0 := Obj(map["_listeners" := Data(Ref(1), {})], None, None, PlainObject, false, None),
        1 := EmptyObject(ArrayNative([Ref(2)])),
        2 := Obj(map["onPress" := Data(Prim("not a function"), {})], None, None, PlainObject, false, None)
      ], 3);
    assert Get(h, true, 0, "_listeners") == Ref(1);
    assert Lookup(h, true, 0, "onPress") == None;
    assert HasProperty(h, true, 2, "onPress");
    ListenerHandlersSingle(h, true, Ref(2), "onPress");
    assert Listeners(h, true, 0) == [Ref(2)];
  }
}
