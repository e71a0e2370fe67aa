/** The environment chain (src/com/sabino/lox/Environment.kt). Environments are frames
    in an arena keyed by frame id; a frame holds its bindings and the id of its
    enclosing frame. Frames are allocated in increasing id order, so an enclosing frame
    always has a smaller id than the frames inside it; `Parent` only follows links that
    respect this order, which makes every walk up the chain terminate. */
module Environment {
  import opened Wrappers
  import opened Values

  /** One `Environment` object: `values` and `enclosing` (Environment.kt:9-18). */
  datatype Frame = Frame(values: map<string, Value>, enclosing: Option<nat>)

  type Frames = map<nat, Frame>

  /** What a lookup at a distance can come back with. `MissingFrame` is the source's
      `ParserError` for a chain shorter than the distance (Environment.kt:41-43). */
  datatype Fetch = Bound(value: Value) | Unbound | MissingFrame

  /** The enclosing frame of `e`. */
  function Parent(fs: Frames, e: nat): (r: Option<nat>)
    ensures r.Some? ==> r.value < e && r.value in fs
  {
    if e in fs && fs[e].enclosing.Some? && fs[e].enclosing.value < e && fs[e].enclosing.value in fs
    then fs[e].enclosing
    else None
  }

  /** The ids of `e` and of all its enclosing frames, innermost first: the reference
      order every lookup below is checked against. */
  function Chain(fs: Frames, e: nat): (r: seq<nat>)
    ensures e in fs ==> |r| >= 1 && r[0] == e
    ensures forall i :: 0 <= i < |r| ==> r[i] in fs
    decreases e
  {
    if e !in fs then []
    else
      match Parent(fs, e)
      case None => [e]
      case Some(p) => [e] + Chain(fs, p)
  }

  lemma ChainTail(fs: Frames, e: nat, i: nat)
    requires e in fs && Parent(fs, e).Some? && i < |Chain(fs, Parent(fs, e).value)|
    ensures i + 1 < |Chain(fs, e)| && Chain(fs, e)[i + 1] == Chain(fs, Parent(fs, e).value)[i]
  {
  }

  /** The nearest frame, starting at `e`, that binds `name`. */
  function Holder(fs: Frames, e: nat, name: string): (r: Option<nat>)
    ensures r.Some? ==> r.value in fs && name in fs[r.value].values
    decreases e
  {
    if e !in fs then None
    else if name in fs[e].values then Some(e)
    else
      match Parent(fs, e)
      case None => None
      case Some(p) => Holder(fs, p, name)
  }

  /** `Holder` walks the chain in order: it answers the first frame of the chain that
      binds the name, and nothing exactly when no frame of the chain binds it. */
  lemma {:induction false} HolderWalksChain(fs: Frames, e: nat, name: string)
    ensures Holder(fs, e, name).None? <==> forall i :: 0 <= i < |Chain(fs, e)| ==> name !in fs[Chain(fs, e)[i]].values
    ensures Holder(fs, e, name).Some? ==>
              exists i :: 0 <= i < |Chain(fs, e)| && Chain(fs, e)[i] == Holder(fs, e, name).value
                          && forall j :: 0 <= j < i ==> name !in fs[Chain(fs, e)[j]].values
    decreases e
  {
    if e !in fs {
    } else if name in fs[e].values {
      assert Chain(fs, e)[0] == e;
    } else if Parent(fs, e).None? {
      assert Chain(fs, e) == [e];
    } else {
      var p := Parent(fs, e).value;
      HolderWalksChain(fs, p, name);
      if Holder(fs, e, name).None? {
        forall i | 0 <= i < |Chain(fs, e)| ensures name !in fs[Chain(fs, e)[i]].values {
          if i > 0 { ChainTail(fs, e, i - 1); }
        }
      } else {
        var i :| 0 <= i < |Chain(fs, p)| && Chain(fs, p)[i] == Holder(fs, p, name).value
                 && forall j :: 0 <= j < i ==> name !in fs[Chain(fs, p)[j]].values;
        ChainTail(fs, e, i);
        assert name in fs[Chain(fs, e)[i + 1]].values;
        forall j | 0 <= j < i + 1 ensures name !in fs[Chain(fs, e)[j]].values {
          if j > 0 { ChainTail(fs, e, j - 1); }
        }
      }
    }
  }

  // ---------------------------------------------------------------------------
  // The operations (Environment.kt:20-77)

  /** `define` (Environment.kt:20-22): binds `name` in frame `e` itself, overwriting a
      binding already there; no other frame and no link changes. */
  function Define(fs: Frames, e: nat, name: string, v: Value): (r: Frames)
    ensures r.Keys == fs.Keys
    ensures e in fs ==> r[e] == Frame(fs[e].values[name := v], fs[e].enclosing)
    ensures forall f :: f in fs && f != e ==> r[f] == fs[f]
  {
    if e in fs then fs[e := Frame(fs[e].values[name := v], fs[e].enclosing)] else fs
  }

  /** `get` (Environment.kt:24-35): the binding in the nearest frame that has one,
      starting with `e`; nothing when no frame of the chain has it (the caller turns
      that into "Undefined variable"). */
  function Get(fs: Frames, e: nat, name: string): (r: Option<Value>)
    ensures r.Some? <==> Holder(fs, e, name).Some?
    ensures r.Some? ==> r.value == fs[Holder(fs, e, name).value].values[name]
    decreases e
  {
    if e !in fs then None
    else if name in fs[e].values then Some(fs[e].values[name])
    else
      match Parent(fs, e)
      case None => None
      case Some(p) => Get(fs, p, name)
  }

  /** `assign` (Environment.kt:46-50): updates the nearest frame that binds `name` and
      nothing else; fails, creating nothing, when no frame of the chain binds it. */
  function Assign(fs: Frames, e: nat, name: string, v: Value): (r: Option<Frames>)
    ensures r.Some? <==> Holder(fs, e, name).Some?
    ensures r.Some? ==>
              var h := Holder(fs, e, name).value;
              r.value == fs[h := Frame(fs[h].values[name := v], fs[h].enclosing)]
    decreases e
  {
    if e !in fs then None
    else if name in fs[e].values then Some(fs[e := Frame(fs[e].values[name := v], fs[e].enclosing)])
    else
      match Parent(fs, e)
      case None => None
      case Some(p) => Assign(fs, p, name, v)
  }

  /** `ancestor` (Environment.kt:67-77): follows exactly `d` enclosing links, and
      answers nothing when the chain is shorter. A distance of zero or less names `e`
      itself, as the source's loop then runs no iteration. */
  function Ancestor(fs: Frames, e: nat, d: int): (r: Option<nat>)
    ensures r.Some? ==> r.value in fs
    ensures d <= 0 ==> r == (if e in fs then Some(e) else None)
    decreases e
  {
    if e !in fs then None
    else if d <= 0 then Some(e)
    else
      match Parent(fs, e)
      case None => None
      case Some(p) => Ancestor(fs, p, d - 1)
  }

  /** The ancestor at distance `d` is the `d`-th element of the chain. */
  lemma {:induction false} AncestorIndexesChain(fs: Frames, e: nat, d: nat)
    ensures Ancestor(fs, e, d) == if d < |Chain(fs, e)| then Some(Chain(fs, e)[d]) else None
    decreases e
  {
    if e in fs && d > 0 && Parent(fs, e).Some? {
      var p := Parent(fs, e).value;
      AncestorIndexesChain(fs, p, d - 1);
      if d - 1 < |Chain(fs, p)| { ChainTail(fs, e, d - 1); }
    }
  }

  /** `getAt` (Environment.kt:37-44): `get` started from the ancestor at distance `d`,
      so a name missing there is still looked up further out. */
  function GetAt(fs: Frames, e: nat, d: int, name: string): (r: Fetch)
    ensures r.MissingFrame? <==> Ancestor(fs, e, d).None?
    ensures r.Bound? ==> Get(fs, Ancestor(fs, e, d).value, name) == Some(r.value)
    ensures r.Unbound? ==> Get(fs, Ancestor(fs, e, d).value, name).None?
  {
    match Ancestor(fs, e, d)
    case None => MissingFrame
    case Some(a) =>
      match Get(fs, a, name)
      case Some(v) => Bound(v)
      case None => Unbound
  }

  /** At distance 0 `getAt` is `get`. */
  lemma GetAtZero(fs: Frames, e: nat, name: string)
    requires e in fs
    ensures GetAt(fs, e, 0, name) == match Get(fs, e, name) case Some(v) => Bound(v) case None => Unbound
  {
  }

  /** `assignAt` (Environment.kt:52-59): writes `name` into the ancestor frame at distance
      `d`, creating the binding there if it is absent, and leaves every other frame as it
      was; fails when the chain is shorter than `d`. */
  function AssignAt(fs: Frames, e: nat, d: int, name: string, v: Value): (r: Option<Frames>)
    ensures r.Some? <==> Ancestor(fs, e, d).Some?
    ensures r.Some? ==> r.value.Keys == fs.Keys
    ensures r.Some? ==>
              var a := Ancestor(fs, e, d).value;
              && r.value[a].values == fs[a].values[name := v]
              && r.value[a].enclosing == fs[a].enclosing
              && forall f :: f in fs && f != a ==> r.value[f] == fs[f]
  {
    match Ancestor(fs, e, d)
    case None => None
    case Some(a) => Some(Define(fs, a, name, v))
  }

  // ---------------------------------------------------------------------------
  // Properties relating the operations

  /** A name just defined in a frame is what `get` finds from that frame. */
  lemma DefineThenGet(fs: Frames, e: nat, name: string, v: Value)
    requires e in fs
    ensures Get(Define(fs, e, name, v), e, name) == Some(v)
  {
  }

  /** After a successful `assign`, `get` from the same frame yields the new value: the
      frame updated is the one `get` reads. */
  lemma {:induction false} AssignThenGet(fs: Frames, e: nat, name: string, v: Value)
    requires Assign(fs, e, name, v).Some?
    ensures Get(Assign(fs, e, name, v).value, e, name) == Some(v)
    decreases e
  {
    if name !in fs[e].values {
      var p := Parent(fs, e).value;
      AssignThenGet(fs, p, name, v);
      var r := Assign(fs, e, name, v).value;
      assert r == Assign(fs, p, name, v).value;
      assert Parent(r, e) == Some(p);
    }
  }
}
