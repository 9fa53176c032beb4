/** `AVM1Utils.getTarget` (AVM1Utils.ts lines 216-227): the slash-syntax
    target path of a clip, built by walking from the clip's display object up
    its `parent` links until an object that is its own `root`.

    The ancestor chain is given as a sequence: `chain[0]` is the clip's
    display object and `chain[i + 1]` is the parent of `chain[i]`. Running off
    the end of the chain is reaching a `null` parent, where the source reads
    `null.root` and throws.
 */
module TargetPath {
  import opened Wrappers

  /** A display object as `getTarget` sees it: its `name`, and whether it is
      the object its own `root` property returns. */
  datatype DisplayNode = DisplayNode(name: string, isRoot: bool)

  function Names(chain: seq<DisplayNode>): (r: seq<string>)
    ensures |r| == |chain|
    ensures forall i :: 0 <= i < |chain| ==> r[i] == chain[i].name
  {
    seq(|chain|, i requires 0 <= i < |chain| => chain[i].name)
  }

  function Reverse<T>(s: seq<T>): seq<T>
    decreases |s|
  {
    if s == [] then [] else [s[|s| - 1]] + Reverse(s[..|s| - 1])
  }

  /** Each name preceded by a slash, in order. */
  function Slashed(names: seq<string>): string
    decreases |names|
  {
    if names == [] then "" else "/" + names[0] + Slashed(names[1..])
  }

  /** The index of the first root at or after `from`, if any. */
  function FirstRoot(chain: seq<DisplayNode>, from: nat): (k: Option<nat>)
    ensures k.Some? ==> (from <= k.value < |chain| && chain[k.value].isRoot
      && forall j :: from <= j < k.value ==> !chain[j].isRoot)
    ensures k.None? ==> forall j :: from <= j < |chain| ==> !chain[j].isRoot
    decreases |chain| - from
  {
    if from >= |chain| then None
    else if chain[from].isRoot then Some(from)
    else FirstRoot(chain, from + 1)
  }

  lemma ReverseSnoc<T>(s: seq<T>, x: T)
    ensures Reverse(s + [x]) == [x] + Reverse(s)
  {
    assert (s + [x])[..|s|] == s;
  }

  lemma SlashedCons(x: string, names: seq<string>)
    ensures Slashed([x] + names) == "/" + x + Slashed(names)
  {
    assert ([x] + names)[1..] == names;
  }

  /** `getTarget`. The root itself is "/"; any other clip is the slash-joined
      names from just below the first root ancestor down to the clip. A chain
      with no root ancestor ends at a `null` parent and fails. */
  method GetTarget(chain: seq<DisplayNode>) returns (r: Result<string>)
    ensures chain == [] ==> r.Err?
    ensures chain != [] && chain[0].isRoot ==> r == Ok("/")
    ensures chain != [] && !chain[0].isRoot && FirstRoot(chain, 1).None? ==> r.Err?
    ensures chain != [] && !chain[0].isRoot && FirstRoot(chain, 1).Some? ==>
      r == Ok(Slashed(Reverse(Names(chain[..FirstRoot(chain, 1).value]))))
  {
    if chain == [] {
      return Err(NullReference);
    }
    if chain[0].isRoot {
      return Ok("/");
    }
    var path := "";
    var i := 0;
    while true
      invariant 0 <= i < |chain|
      invariant forall j :: 1 <= j <= i ==> !chain[j].isRoot
      invariant path == Slashed(Reverse(Names(chain[..i])))
      decreases |chain| - i
    {
      assert Names(chain[..i + 1]) == Names(chain[..i]) + [chain[i].name];
      ReverseSnoc(Names(chain[..i]), chain[i].name);
      SlashedCons(chain[i].name, Reverse(Names(chain[..i])));
      path := "/" + chain[i].name + path;
      i := i + 1;
      if i >= |chain| {
        return Err(NullReference);
      }
      if chain[i].isRoot {
        return Ok(path);
      }
    }
  }

  /** Splits a path produced by `Slashed` back into its names. */
  function SplitPath(p: string): seq<string>
    decreases |p|
  {
    if p == [] || p[0] != '/' then []
    else
      var seg := Segment(p[1..]);
      [seg] + SplitPath(p[1 + |seg|..])
  }

  /** The longest prefix of `p` without a slash. */
  function Segment(p: string): (seg: string)
    ensures seg <= p && forall i :: 0 <= i < |seg| ==> seg[i] != '/'
    ensures |seg| < |p| ==> p[|seg|] == '/'
    decreases |p|
  {
    if p == [] || p[0] == '/' then [] else [p[0]] + Segment(p[1..])
  }

  predicate NoSlash(name: string) {
    forall i :: 0 <= i < |name| ==> name[i] != '/'
  }

  lemma {:induction false} SegmentOf(name: string, rest: string)
    requires NoSlash(name)
    requires rest == [] || rest[0] == '/'
    ensures Segment(name + rest) == name
    decreases |name|
  {
    if name == [] {
      assert name + rest == rest;
    } else {
      assert (name + rest)[1..] == name[1..] + rest;
      SegmentOf(name[1..], rest);
    }
  }

  /** A target path determines the names on it when no name holds a slash. */
  lemma {:induction false} SplitSlashed(names: seq<string>)
    requires forall i :: 0 <= i < |names| ==> NoSlash(names[i])
    ensures SplitPath(Slashed(names)) == names
    decreases |names|
  {
    if names != [] {
      var p := Slashed(names);
      var tail := Slashed(names[1..]);
      assert p == "/" + names[0] + tail;
      assert p[1..] == names[0] + tail;
      assert tail == [] || tail[0] == '/';
      SegmentOf(names[0], tail);
      assert p[1 + |names[0]|..] == tail;
      SplitSlashed(names[1..]);
    }
  }

  /** Two clips below the same kind of root chain with slash-free names get
      the same target path only when their name chains agree. */
  lemma TargetPathInjective(a: seq<string>, b: seq<string>)
    requires forall i :: 0 <= i < |a| ==> NoSlash(a[i])
    requires forall i :: 0 <= i < |b| ==> NoSlash(b[i])
    requires Slashed(a) == Slashed(b)
    ensures a == b
  {
    SplitSlashed(a);
    SplitSlashed(b);
  }
}
