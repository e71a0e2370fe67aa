/** The tree-walking evaluator (src/com/sabino/lox/Interpreter.kt) together with the call
    behaviour of functions and classes (src/com/sabino/lox/types/LoxFunction.kt:16-33,
    LoxClass.kt:21-31). The interpreter's mutable fields become a `State`: the frame
    arena, the instance heap, the allocation counter, the current frame and the printed
    output. Exceptions become `Abrupt` outcomes. Every evaluation carries `fuel`, one
    unit of which is spent per expression, statement and loop iteration, so that a
    program that runs forever simply runs out of it. */
module Interpreter {
  import opened Wrappers
  import opened Tokens
  import opened Ast
  import opened Values
  import Env = Environment

  /** The id of the `globals` frame (Interpreter.kt:12). */
  const GLOBALS: nat := 0

  datatype State = State(
    frames: Env.Frames,
    heap: map<nat, Fields>,
    next: nat,
    env: nat,
    out: seq<Rendered>)

  /** What stays fixed during a run: the resolver's side table of scope distances,
      keyed by reference-node id, and the wall clock in milliseconds, which `clock()`
      reads. */
  datatype Context = Context(locals: map<nat, nat>, millis: nat)

  /** Why evaluation stopped early. `Thrown` is a `RuntimeError`; `Returned` is the
      `Return` signal a `return` statement raises; `Crashed` is any other exception,
      which nothing in the interpreter catches. */
  datatype Signal = Thrown(error: RuntimeError) | Returned(value: Value) | Crashed(reason: string) | OutOfFuel

  datatype Outcome<+T> = Normal(value: T, st: State) | Abrupt(signal: Signal, st: State)

  /** Every frame the methods of `k` and of its whole superclass chain close over is
      one of `ids`. */
  predicate ClassIn(k: LoxClass, ids: set<nat>)
    decreases k
  {
    && (forall m :: m in k.methods ==> k.methods[m].closure in ids)
    && (k.superclass.Some? ==> ClassIn(k.superclass.value, ids))
  }

  /** Every frame a value can reach, as a closure or through a class, is one of `ids`. */
  predicate ValueIn(v: Value, ids: set<nat>) {
    match v
    case FunctionValue(f) => f.closure in ids
    case ClassValue(k) => ClassIn(k, ids)
    case Instance(_, k) => ClassIn(k, ids)
    case _ => true
  }

  predicate BindingsIn(values: map<string, Value>, ids: set<nat>) {
    forall n :: n in values ==> ValueIn(values[n], ids)
  }

  predicate ValuesIn(vs: seq<Value>, ids: set<nat>) {
    forall i :: 0 <= i < |vs| ==> ValueIn(vs[i], ids)
  }

  /** A `Return` signal carries a value whose frames exist. */
  predicate SignalIn(sig: Signal, ids: set<nat>) {
    sig.Returned? ==> ValueIn(sig.value, ids)
  }

  /** Frame `k` links to an existing frame with a smaller id, or to none. */
  predicate Linked(fs: Env.Frames, k: nat)
    requires k in fs
  {
    fs[k].enclosing.Some? ==> fs[k].enclosing.value < k && fs[k].enclosing.value in fs
  }

  /** The shape every evaluator state keeps, as the source's object graph does by
      construction: frame and instance ids are below the allocation counter; the global
      frame and the current frame exist; every frame's enclosing frame exists and was
      created before it; and every value held in a frame or an instance field reaches
      only existing frames. */
  predicate Sound(st: State) {
    && GLOBALS in st.frames
    && st.env in st.frames
    && (forall k :: k in st.frames ==> k < st.next)
    && (forall k :: k in st.heap ==> k < st.next)
    && (forall k {:trigger st.frames[k]} :: k in st.frames ==> Linked(st.frames, k))
    && (forall k {:trigger st.frames[k]} :: k in st.frames ==> BindingsIn(st.frames[k].values, st.frames.Keys))
    && (forall k :: k in st.heap ==> BindingsIn(st.heap[k], st.frames.Keys))
  }

  /** A sound end state, and a result or `Return` value that reaches only its frames. */
  predicate ValueOk(r: Outcome<Value>) {
    && Sound(r.st)
    && (r.Normal? ==> ValueIn(r.value, r.st.frames.Keys))
    && (r.Abrupt? ==> SignalIn(r.signal, r.st.frames.Keys))
  }

  predicate ValuesOk(r: Outcome<seq<Value>>) {
    && Sound(r.st)
    && (r.Normal? ==> ValuesIn(r.value, r.st.frames.Keys))
    && (r.Abrupt? ==> SignalIn(r.signal, r.st.frames.Keys))
  }

  predicate UnitOk(r: Outcome<()>) {
    && Sound(r.st)
    && (r.Abrupt? ==> SignalIn(r.signal, r.st.frames.Keys))
  }

  /** What every evaluation step preserves: the current frame is the one it started in,
      output is only appended to, and nothing allocated disappears. */
  predicate Step(a: State, b: State) {
    && b.env == a.env
    && a.out <= b.out
    && a.next <= b.next
    && a.frames.Keys <= b.frames.Keys
    && a.heap.Keys <= b.heap.Keys
  }

  lemma ClassInGrows(k: LoxClass, a: set<nat>, b: set<nat>)
    ensures a <= b && ClassIn(k, a) ==> ClassIn(k, b)
    decreases k
  {
    if k.superclass.Some? {
      ClassInGrows(k.superclass.value, a, b);
    }
  }

  /** Creating frames never makes a value reach a missing one. */
  lemma ValueInGrows(v: Value, a: set<nat>, b: set<nat>)
    ensures a <= b && ValueIn(v, a) ==> ValueIn(v, b)
  {
    if v.ClassValue? || v.Instance? {
      ClassInGrows(v.klass, a, b);
    }
  }

  lemma SignalInGrows(sig: Signal, a: set<nat>, b: set<nat>)
    ensures a <= b && SignalIn(sig, a) ==> SignalIn(sig, b)
  {
    if sig.Returned? {
      ValueInGrows(sig.value, a, b);
    }
  }

  lemma BindingsInGrows(values: map<string, Value>, a: set<nat>, b: set<nat>)
    ensures a <= b && BindingsIn(values, a) ==> BindingsIn(values, b)
  {
    forall n | n in values && a <= b && BindingsIn(values, a) ensures ValueIn(values[n], b) {
      ValueInGrows(values[n], a, b);
    }
  }

  /** The method `findMethod` finds closes over a frame its class reaches. */
  lemma FindMethodIn(k: LoxClass, name: string, ids: set<nat>)
    ensures ClassIn(k, ids) && FindMethod(k, name).Some? ==> FindMethod(k, name).value.closure in ids
    decreases k
  {
    if name !in k.methods && k.superclass.Some? {
      FindMethodIn(k.superclass.value, name, ids);
    }
  }

  /** In a sound state no frame's link is cut short: `Parent` is exactly the frame's
      enclosing frame, so every walk up the chain follows the source's links. */
  lemma ParentFollowsLink(st: State, k: nat)
    requires Sound(st) && k in st.frames
    ensures Env.Parent(st.frames, k) == st.frames[k].enclosing
  {
    assert Linked(st.frames, k);
  }

  /** Rebinding one name of one existing frame to a reaching value, with no frame or
      link added or removed, keeps a state sound. */
  lemma RebindKeepsSound(st: State, fs: Env.Frames, a: nat, name: string, v: Value)
    ensures && Sound(st) && a in st.frames && ValueIn(v, st.frames.Keys)
            && fs.Keys == st.frames.Keys
            && fs[a].values == st.frames[a].values[name := v] && fs[a].enclosing == st.frames[a].enclosing
            && (forall f :: f in st.frames && f != a ==> fs[f] == st.frames[f])
            ==> Sound(st.(frames := fs))
  {
    if && Sound(st) && a in st.frames && ValueIn(v, st.frames.Keys)
       && fs.Keys == st.frames.Keys
       && fs[a].values == st.frames[a].values[name := v] && fs[a].enclosing == st.frames[a].enclosing
       && (forall f :: f in st.frames && f != a ==> fs[f] == st.frames[f])
    {
      forall k | k in fs ensures Linked(fs, k) && BindingsIn(fs[k].values, fs.Keys) {
        assert Linked(st.frames, k);
      }
    }
  }

  /** A class built by a declaration reaches only frames that exist once its method
      frame does. */
  lemma NewClassIn(id: nat, name: string, superclass: Option<LoxClass>, methods: seq<FunDecl>, closure: nat,
                   a: set<nat>, b: set<nat>)
    ensures a <= b && closure in b && (superclass.Some? ==> ClassIn(superclass.value, a)) ==>
              ClassIn(LoxClass(id, name, superclass, MethodTable(methods, closure)), b)
  {
    if a <= b && closure in b && superclass.Some? && ClassIn(superclass.value, a) {
      ClassInGrows(superclass.value, a, b);
    }
  }

  /** A new frame with an existing parent and reaching values keeps a state sound. */
  lemma PushKeepsSound(st: State, parent: nat, values: map<string, Value>)
    ensures Sound(st) && parent in st.frames && BindingsIn(values, st.frames.Keys) ==>
              Sound(st.(frames := st.frames[st.next := Env.Frame(values, Some(parent))], next := st.next + 1))
  {
    if !(Sound(st) && parent in st.frames && BindingsIn(values, st.frames.Keys)) {
      return;
    }
    var fs := st.frames[st.next := Env.Frame(values, Some(parent))];
    assert st.next !in st.frames;
    assert fs.Keys == st.frames.Keys + {st.next};
    forall k | k in fs ensures Linked(fs, k) && BindingsIn(fs[k].values, fs.Keys) {
      if k == st.next {
        BindingsInGrows(values, st.frames.Keys, fs.Keys);
      } else {
        assert Linked(st.frames, k);
        BindingsInGrows(st.frames[k].values, st.frames.Keys, fs.Keys);
      }
    }
    forall k | k in st.heap ensures BindingsIn(st.heap[k], fs.Keys) {
      BindingsInGrows(st.heap[k], st.frames.Keys, fs.Keys);
    }
  }

  function UndefinedVariable(name: Token): RuntimeError {
    RuntimeError(name, "Undefined variable '" + name.lexeme + "'.")
  }

  function NotAnInstance(name: Token): RuntimeError {
    RuntimeError(name, "Only instances have properties.")
  }

  /** The state `interpret` starts from: the global frame holds only `clock`
      (Interpreter.kt:12-18). */
  function Initial(): (st: State)
    ensures Sound(st) && st.env == GLOBALS && st.out == []
    ensures Env.Get(st.frames, GLOBALS, "clock") == Some(Clock)
  {
    State(map[GLOBALS := Env.Frame(map["clock" := Clock], None)], map[], GLOBALS + 1, GLOBALS, [])
  }

  /** A fresh frame inside `parent`, holding `values`; it gets the counter's id. */
  function PushFrame(st: State, parent: nat, values: map<string, Value>): (r: State)
    ensures Sound(st) ==> st.next !in st.frames
    ensures r.frames == st.frames[st.next := Env.Frame(values, Some(parent))]
    ensures r.next == st.next + 1
    ensures r.heap == st.heap && r.env == st.env && r.out == st.out
    ensures Step(st, r)
    ensures Sound(st) && parent in st.frames && BindingsIn(values, st.frames.Keys) ==> Sound(r)
  {
    PushKeepsSound(st, parent, values);
    st.(frames := st.frames[st.next := Env.Frame(values, Some(parent))], next := st.next + 1)
  }

  /** The fields of instance `ref`; every instance has an entry in the heap. */
  function FieldsOf(st: State, ref: nat): Fields {
    if ref in st.heap then st.heap[ref] else map[]
  }

  // ---------------------------------------------------------------------------
  // Value semantics (Interpreter.kt:182-190, 280-305)

  /** `isTruthy` (Interpreter.kt:280-288). */
  function IsTruthy(v: Value): (r: bool)
    ensures r <==> !(v.Nil? || v == Bool(false))
  {
    match v
    case Nil => false
    case Bool(b) => b
    case _ => true
  }

  /** `isEqual` (Interpreter.kt:290-298): two nils are equal, nil never equals anything
      else, and otherwise values are compared without any conversion. */
  function IsEqual(a: Value, b: Value): (r: bool)
    ensures r <==> a == b
    ensures a.Nil? != b.Nil? ==> !r
  {
    if a.Nil? && b.Nil? then true
    else if a.Nil? then false
    else a == b
  }

  /** nil, a boolean, a number or a string: a value that reaches no frame. */
  predicate Primitive(v: Value) {
    v.Nil? || v.Bool? || v.Num? || v.Str?
  }

  predicate NumericOperator(kind: TokenType) {
    kind in {GREATER, GREATER_EQUAL, LESS, LESS_EQUAL, MINUS, SLASH, STAR}
  }

  /** The arithmetic and comparison operators once both operands are known to be
      numbers (Interpreter.kt:47-77). */
  function Arithmetic(op: Token, x: real, y: real): (r: Result<Value>)
    requires NumericOperator(op.kind)
    ensures r.Failure? <==> op.kind == SLASH && y == 0.0
    ensures r.Failure? ==> r.error == RuntimeError(op, "Can not divide by zero")
    ensures r.Success? ==> (r.value.Bool? <==> op.kind in {GREATER, GREATER_EQUAL, LESS, LESS_EQUAL})
    ensures r.Success? ==> (r.value.Num? <==> op.kind in {MINUS, STAR, SLASH})
    ensures op.kind == LESS ==> r == Success(Bool(x < y))
    ensures op.kind == GREATER ==> r == Success(Bool(y < x))
    ensures op.kind == LESS_EQUAL ==> r == Success(Bool(!(y < x)))
    ensures op.kind == GREATER_EQUAL ==> r == Success(Bool(!(x < y)))
    ensures op.kind == MINUS ==> r.Success? && r.value.Num? && r.value.n + y == x
    ensures op.kind == STAR ==> r.Success? && r.value.Num?
    ensures op.kind == STAR && y != 0.0 ==> r.value.n / y == x
    ensures op.kind == STAR && y == 0.0 ==> r.value.n == 0.0
    ensures op.kind == SLASH && r.Success? ==> r.value.Num? && r.value.n * y == x
  {
    match op.kind
    case GREATER => Success(Bool(x > y))
    case GREATER_EQUAL => Success(Bool(x >= y))
    case LESS => Success(Bool(x < y))
    case LESS_EQUAL => Success(Bool(x <= y))
    case MINUS => Success(Num(x - y))
    case STAR => Success(Num(x * y))
    case SLASH => if y == 0.0 then Failure(RuntimeError(op, "Can not divide by zero")) else Success(Num(x / y))
  }

  /** `visitBinaryExpr` once both operands are evaluated (Interpreter.kt:45-94). */
  function BinaryOp(op: Token, l: Value, r: Value): (res: Result<Value>)
    ensures NumericOperator(op.kind) && !(l.Num? && r.Num?) ==>
              res == Failure(RuntimeError(op, "Operands must be a Number."))
    ensures op.kind == SLASH && l.Num? && r.Num? ==>
              (res.Failure? <==> r.n == 0.0) && (res.Success? ==> res.value == Num(l.n / r.n))
    ensures op.kind == PLUS ==> (res.Failure? <==> !((l.Num? && r.Num?) || (l.Str? && r.Str?)))
    ensures op.kind == PLUS && res.Failure? ==> res.error == RuntimeError(op, "Operand must be a both Strings or Numbers.")
    ensures op.kind == PLUS && l.Num? && r.Num? ==> res == Success(Num(l.n + r.n))
    ensures op.kind == PLUS && l.Str? && r.Str? ==> res == Success(Str(l.s + r.s))
    ensures op.kind == EQUAL_EQUAL ==> res == Success(Bool(l == r))
    ensures op.kind == BANG_EQUAL ==> res == Success(Bool(l != r))
    ensures !NumericOperator(op.kind) && op.kind !in {PLUS, EQUAL_EQUAL, BANG_EQUAL} ==> res == Success(Nil)
    ensures res.Success? ==> Primitive(res.value)
    ensures NumericOperator(op.kind) && l.Num? && r.Num? ==> res == Arithmetic(op, l.n, r.n)
  {
    if NumericOperator(op.kind) then
      if l.Num? && r.Num? then Arithmetic(op, l.n, r.n)
      else Failure(RuntimeError(op, "Operands must be a Number."))
    else if op.kind == PLUS then
      if l.Num? && r.Num? then Success(Num(l.n + r.n))
      else if l.Str? && r.Str? then Success(Str(l.s + r.s))
      else Failure(RuntimeError(op, "Operand must be a both Strings or Numbers."))
    else if op.kind == BANG_EQUAL then Success(Bool(!IsEqual(l, r)))
    else if op.kind == EQUAL_EQUAL then Success(Bool(IsEqual(l, r)))
    else Success(Nil)
  }

  /** Swapping the operands of `>` gives `<`, and of `>=` gives `<=`. */
  lemma ComparisonMirror(op: Token, a: Value, b: Value)
    requires a.Num? && b.Num?
    ensures BinaryOp(op.(kind := GREATER), a, b) == BinaryOp(op.(kind := LESS), b, a)
    ensures BinaryOp(op.(kind := GREATER_EQUAL), a, b) == BinaryOp(op.(kind := LESS_EQUAL), b, a)
  {
  }

  /** On numbers `>=` is the negation of `<`, and `<=` the negation of `>`. */
  lemma ComparisonComplement(op: Token, a: Value, b: Value)
    requires a.Num? && b.Num?
    ensures BinaryOp(op.(kind := GREATER_EQUAL), a, b).value.b == !BinaryOp(op.(kind := LESS), a, b).value.b
    ensures BinaryOp(op.(kind := LESS_EQUAL), a, b).value.b == !BinaryOp(op.(kind := GREATER), a, b).value.b
  {
  }

  /** Subtraction is undone by `+`, and multiplication by a non-zero number is undone
      by `/`. */
  lemma ArithmeticInverse(op: Token, a: Value, b: Value)
    requires a.Num? && b.Num?
    ensures BinaryOp(op.(kind := PLUS), BinaryOp(op.(kind := MINUS), a, b).value, b) == Success(a)
    ensures b.n != 0.0 ==>
              BinaryOp(op.(kind := SLASH), BinaryOp(op.(kind := STAR), a, b).value, b) == Success(a)
  {
  }

  /** `visitUnaryExpr` once the operand is evaluated (Interpreter.kt:182-190): negating
      a non-number gives nil rather than an error. */
  function UnaryOp(op: Token, v: Value): (r: Value)
    ensures op.kind == MINUS ==> r == (if v.Num? then Num(-v.n) else Nil)
    ensures op.kind == BANG ==> r == Bool(v.Nil? || v == Bool(false))
    ensures op.kind != MINUS && op.kind != BANG ==> r == Nil
    ensures Primitive(r)
  {
    match op.kind
    case MINUS => if v.Num? then Num(-v.n) else Nil
    case BANG => Bool(!IsTruthy(v))
    case _ => Nil
  }

  function LiteralValueOf(l: LiteralValue): Value {
    match l
    case NilLit => Nil
    case BoolLit(b) => Bool(b)
    case NumLit(n) => Num(n)
    case StrLit(s) => Str(s)
  }

  // ---------------------------------------------------------------------------
  // Variables (Interpreter.kt:28-39, 324-331)

  /** `lookupVariable`: `getAt` at the recorded distance when the resolver recorded one,
      `globals.get` otherwise. A chain shorter than the distance crashes. */
  function LookupVariable(name: Token, id: nat, st: State, cx: Context): (r: Outcome<Value>)
    ensures r.st == st
    ensures id in cx.locals ==>
              match Env.GetAt(st.frames, st.env, cx.locals[id], name.lexeme)
              case Bound(v) => r == Normal(v, st)
              case Unbound => r == Abrupt(Thrown(UndefinedVariable(name)), st)
              case MissingFrame => r.Abrupt? && r.signal.Crashed?
    ensures id !in cx.locals ==>
              match Env.Get(st.frames, GLOBALS, name.lexeme)
              case Some(v) => r == Normal(v, st)
              case None => r == Abrupt(Thrown(UndefinedVariable(name)), st)
  {
    if id in cx.locals then
      match Env.GetAt(st.frames, st.env, cx.locals[id], name.lexeme)
      case Bound(v) => Normal(v, st)
      case Unbound => Abrupt(Thrown(UndefinedVariable(name)), st)
      case MissingFrame => Abrupt(Crashed("no environment at the resolved distance"), st)
    else
      match Env.Get(st.frames, GLOBALS, name.lexeme)
      case Some(v) => Normal(v, st)
      case None => Abrupt(Thrown(UndefinedVariable(name)), st)
  }

  /** The store half of `visitAssignExpr`: `assignAt` at the recorded distance, which
      creates the binding in that frame if needed, or `globals.assign`, which fails for
      an undefined name. The value stored is the expression's value. */
  function StoreVariable(name: Token, id: nat, v: Value, st: State, cx: Context): (r: Outcome<Value>)
    ensures Step(st, r.st) && r.st.out == st.out && r.st.heap == st.heap && r.st.next == st.next
    ensures r.st.frames.Keys == st.frames.Keys
    ensures r.Normal? ==> r.value == v
    ensures id in cx.locals ==>
              && (r.Normal? <==> Env.AssignAt(st.frames, st.env, cx.locals[id], name.lexeme, v).Some?)
              && (r.Normal? ==> r.st.frames == Env.AssignAt(st.frames, st.env, cx.locals[id], name.lexeme, v).value)
    ensures id !in cx.locals ==>
              && (r.Normal? <==> Env.Get(st.frames, GLOBALS, name.lexeme).Some?)
              && (r.Normal? ==> r.st.frames == Env.Assign(st.frames, GLOBALS, name.lexeme, v).value)
    ensures r.Abrupt? ==> r == Abrupt(Thrown(UndefinedVariable(name)), st)
    ensures Sound(st) && ValueIn(v, st.frames.Keys) ==> Sound(r.st)
  {
    if id in cx.locals then
      match Env.AssignAt(st.frames, st.env, cx.locals[id], name.lexeme, v)
      case Some(fs) =>
        RebindKeepsSound(st, fs, Env.Ancestor(st.frames, st.env, cx.locals[id]).value, name.lexeme, v);
        Normal(v, st.(frames := fs))
      case None => Abrupt(Thrown(UndefinedVariable(name)), st)
    else
      match Env.Assign(st.frames, GLOBALS, name.lexeme, v)
      case Some(fs) =>
        RebindKeepsSound(st, fs, Env.Holder(st.frames, GLOBALS, name.lexeme).value, name.lexeme, v);
        Normal(v, st.(frames := fs))
      case None => Abrupt(Thrown(UndefinedVariable(name)), st)
  }

  /** Reading a variable right after storing it, through the same reference id, yields
      the value stored: `assignAt` writes exactly the frame `getAt` starts from, and
      `assign` writes exactly the frame `get` finds. */
  lemma StoreThenLookup(name: Token, id: nat, v: Value, st: State, cx: Context)
    requires StoreVariable(name, id, v, st, cx).Normal?
    ensures LookupVariable(name, id, StoreVariable(name, id, v, st, cx).st, cx) == Normal(v, StoreVariable(name, id, v, st, cx).st)
  {
    var r := StoreVariable(name, id, v, st, cx);
    if id in cx.locals {
      var d := cx.locals[id];
      var a := Env.Ancestor(st.frames, st.env, d).value;
      AncestorUnmoved(st.frames, r.st.frames, st.env, d);
      assert Env.Ancestor(r.st.frames, st.env, d) == Some(a);
      assert name.lexeme in r.st.frames[a].values;
    } else {
      Env.AssignThenGet(st.frames, GLOBALS, name.lexeme, v);
    }
  }

  /** Rewriting bindings without touching links leaves every ancestor where it was. */
  lemma {:induction false} AncestorUnmoved(fs: Env.Frames, gs: Env.Frames, e: nat, d: int)
    requires fs.Keys == gs.Keys
    requires forall f :: f in fs ==> gs[f].enclosing == fs[f].enclosing
    ensures Env.Ancestor(gs, e, d) == Env.Ancestor(fs, e, d)
    decreases e
  {
    if e in fs && d > 0 {
      assert Env.Parent(gs, e) == Env.Parent(fs, e);
      if Env.Parent(fs, e).Some? {
        AncestorUnmoved(fs, gs, Env.Parent(fs, e).value, d - 1);
      }
    }
  }

  // ---------------------------------------------------------------------------
  // Functions, bound methods and classes

  /** No entry of `names` between `i` and `k` repeats entry `i`. */
  predicate LastBefore(names: seq<string>, i: nat, k: nat)
    requires i < k <= |names|
  {
    forall j :: i < j < k ==> names[j] != names[i]
  }

  /** The first `k` entries of `names` bound to the matching `vals`, one after the
      other, so a later entry of the same name replaces an earlier one. */
  function Bindings<V>(names: seq<string>, vals: seq<V>, k: nat): (r: map<string, V>)
    requires |names| == |vals| && k <= |names|
    ensures forall i :: 0 <= i < k ==> names[i] in r
    ensures forall n :: n in r ==> r[n] in vals
    ensures forall i :: 0 <= i < k && LastBefore(names, i, k) ==> r[names[i]] == vals[i]
    decreases k
  {
    if k == 0 then map[]
    else Bindings(names, vals, k - 1)[names[k - 1] := vals[k - 1]]
  }

  /** The parameters' bindings in a call (LoxFunction.kt:19-24): parameter `i` holds
      argument `i` unless a later parameter has the same name. */
  function ParamBindings(params: seq<Token>, args: seq<Value>): (r: map<string, Value>)
    requires |params| == |args|
    ensures forall i :: 0 <= i < |params| ==> params[i].lexeme in r
    ensures forall n :: n in r ==> r[n] in args
    ensures forall i :: 0 <= i < |params| && (forall j :: i < j < |params| ==> params[j].lexeme != params[i].lexeme)
                        ==> r[params[i].lexeme] == args[i]
  {
    var names := seq(|params|, i requires 0 <= i < |params| => params[i].lexeme);
    forall i | 0 <= i < |params| && (forall j :: i < j < |params| ==> params[j].lexeme != params[i].lexeme)
      ensures LastBefore(names, i, |params|)
    {
    }
    Bindings(names, args, |params|)
  }

  /** The method table of a class declaration (Interpreter.kt:221-223): each method
      closes over `closure`, is an initializer exactly when named `init`, and a later
      method of the same name replaces an earlier one. */
  function MethodTable(methods: seq<FunDecl>, closure: nat): (r: map<string, LoxFunction>)
    ensures forall i :: 0 <= i < |methods| ==> methods[i].name.lexeme in r
    ensures forall i :: 0 <= i < |methods| && (forall j :: i < j < |methods| ==> methods[j].name.lexeme != methods[i].name.lexeme)
                        ==> r[methods[i].name.lexeme] == LoxFunction(methods[i], closure, methods[i].name.lexeme == "init")
    ensures forall m :: m in r ==> r[m].closure == closure
  {
    var names := seq(|methods|, i requires 0 <= i < |methods| => methods[i].name.lexeme);
    var fns := seq(|methods|, i requires 0 <= i < |methods| => LoxFunction(methods[i], closure, methods[i].name.lexeme == "init"));
    forall i | 0 <= i < |methods| && (forall j :: i < j < |methods| ==> methods[j].name.lexeme != methods[i].name.lexeme)
      ensures LastBefore(names, i, |methods|)
    {
    }
    forall f | f in fns ensures f.closure == closure {
      var i :| 0 <= i < |fns| && fns[i] == f;
    }
    Bindings(names, fns, |methods|)
  }

  /** `bind` (used at Interpreter.kt:173 and LoxClass.kt:27): the same declaration,
      closing over a fresh frame inside the original closure that binds `this`. */
  function Bind(f: LoxFunction, receiver: Value, st: State): (r: (LoxFunction, State))
    ensures r.0.decl == f.decl && r.0.isInit == f.isInit && r.0.closure == st.next
    ensures Sound(st) ==> r.0.closure !in st.frames
    ensures r.1.frames == st.frames[r.0.closure := Env.Frame(map["this" := receiver], Some(f.closure))]
    ensures Step(st, r.1) && r.1.heap == st.heap && r.1.out == st.out
    ensures Sound(st) && f.closure in st.frames && ValueIn(receiver, st.frames.Keys) ==>
              Sound(r.1) && ValueIn(FunctionValue(r.0), r.1.frames.Keys)
  {
    (LoxFunction(f.decl, st.next, f.isInit), PushFrame(st, f.closure, map["this" := receiver]))
  }

  /** The checks `visitCallExpr` makes after evaluating callee and arguments
      (Interpreter.kt:102-110): the callee must be callable, then the argument count
      must equal its arity. */
  function CheckCall(callee: Value, argc: nat, paren: Token): (r: Option<RuntimeError>)
    ensures r.None? <==> Arity(callee) == Some(argc)
    ensures !IsCallable(callee) ==> r == Some(RuntimeError(paren, "Can only call functions and classes."))
    ensures IsCallable(callee) && Arity(callee).value != argc ==>
              r == Some(RuntimeError(paren, "Expected " + NatToString(Arity(callee).value) + " arguments but got " + NatToString(argc) + "."))
  {
    match Arity(callee)
    case None => Some(RuntimeError(paren, "Can only call functions and classes."))
    case Some(n) =>
      if n != argc then Some(RuntimeError(paren, "Expected " + NatToString(n) + " arguments but got " + NatToString(argc) + "."))
      else None
  }

  /** The class declaration's effect once the superclass, if any, is known
      (Interpreter.kt:214-231): the name is defined as nil in the current frame; with a
      superclass, the methods close over a fresh frame inside the current one that binds
      `super`; the new class is then assigned to the name. */
  function DeclareClass(name: Token, superclass: Option<LoxClass>, methods: seq<FunDecl>, st: State): (r: Outcome<()>)
    ensures Step(st, r.st) && r.st.out == st.out
    ensures Sound(st) ==> r.Normal?
    ensures Sound(st) ==>
              && Env.Get(r.st.frames, st.env, name.lexeme).Some?
              && Env.Get(r.st.frames, st.env, name.lexeme).value.ClassValue?
              && Declares(Env.Get(r.st.frames, st.env, name.lexeme).value.klass, name, superclass, methods)
    ensures Sound(st) && superclass.Some? ==>
              && st.next in r.st.frames
              && r.st.frames[st.next] == Env.Frame(map["super" := ClassValue(superclass.value)], Some(st.env))
    ensures Sound(st) ==>
              var closure := if superclass.Some? then st.next else st.env;
              var id := if superclass.Some? then st.next + 1 else st.next;
              Env.Get(r.st.frames, st.env, name.lexeme)
              == Some(ClassValue(LoxClass(id, name.lexeme, superclass, MethodTable(methods, closure))))
    ensures Sound(st) && (superclass.Some? ==> ClassIn(superclass.value, st.frames.Keys)) ==> Sound(r.st)
  {
    var st1 := DefineHere(st, name.lexeme, Nil);
    var scope := ClassScope(superclass, st1);
    var klass := LoxClass(scope.1.next, name.lexeme, superclass, MethodTable(methods, scope.0));
    NewClassIn(scope.1.next, name.lexeme, superclass, methods, scope.0, st.frames.Keys, scope.1.frames.Keys);
    AssignClass(name, klass, ReserveId(scope.1))
  }

  /** Uses up the counter's id, for the identity of a new class. */
  function ReserveId(st: State): (r: State)
    ensures r.next == st.next + 1
    ensures r.frames == st.frames && r.heap == st.heap && r.env == st.env && r.out == st.out
    ensures Step(st, r)
    ensures Sound(st) ==> Sound(r)
  {
    st.(next := st.next + 1)
  }

  /** The class `k` is the one a declaration of `name` with these parts creates. */
  predicate Declares(k: LoxClass, name: Token, superclass: Option<LoxClass>, methods: seq<FunDecl>) {
    && k.name == name.lexeme
    && k.superclass == superclass
    && (forall i :: 0 <= i < |methods| ==> methods[i].name.lexeme in k.methods)
  }

  /** The final `environment.assign` of the class to its name (Interpreter.kt:231). */
  function AssignClass(name: Token, klass: LoxClass, st: State): (r: Outcome<()>)
    ensures Step(st, r.st) && r.st.out == st.out && r.st.next == st.next
    ensures st.env in st.frames && name.lexeme in st.frames[st.env].values ==>
              r.Normal? && Env.Get(r.st.frames, st.env, name.lexeme) == Some(ClassValue(klass))
    ensures forall f :: f in st.frames && f != st.env && st.env in st.frames && name.lexeme in st.frames[st.env].values
                        ==> r.st.frames[f] == st.frames[f]
    ensures Sound(st) && ClassIn(klass, st.frames.Keys) ==> Sound(r.st)
  {
    match Env.Assign(st.frames, st.env, name.lexeme, ClassValue(klass))
    case Some(fs) =>
      Env.AssignThenGet(st.frames, st.env, name.lexeme, ClassValue(klass));
      RebindKeepsSound(st, fs, Env.Holder(st.frames, st.env, name.lexeme).value, name.lexeme, ClassValue(klass));
      Normal((), st.(frames := fs))
    case None => Abrupt(Thrown(UndefinedVariable(name)), st)
  }

  /** The frame the methods of a class close over: a fresh frame binding `super` when
      there is a superclass, the current frame otherwise. */
  function ClassScope(superclass: Option<LoxClass>, st: State): (r: (nat, State))
    ensures Step(st, r.1) && r.1.out == st.out
    ensures Sound(st) ==> r.1.frames[st.env] == st.frames[st.env]
    ensures superclass.None? ==> r == (st.env, st)
    ensures superclass.Some? ==> r.0 == st.next && r.1 == PushFrame(st, st.env, map["super" := ClassValue(superclass.value)])
    ensures Sound(st) && (superclass.Some? ==> ClassIn(superclass.value, st.frames.Keys)) ==>
              Sound(r.1) && r.0 in r.1.frames
  {
    match superclass
    case None => (st.env, st)
    case Some(c) => (st.next, PushFrame(st, st.env, map["super" := ClassValue(c)]))
  }

  // ---------------------------------------------------------------------------
  // Expressions (Interpreter.kt:28-198)
  //
  // Termination: `fuel` drops at every expression, statement and loop iteration; at
  // equal fuel, the second component orders the helpers by who calls whom, and the
  // third walks down a sequence.

  function EvalExpr(e: Expr, st: State, cx: Context, fuel: nat): (r: Outcome<Value>)
    ensures Step(st, r.st)
    decreases fuel, 0, 0
  {
    if fuel == 0 then Abrupt(OutOfFuel, st)
    else
      match e
      case Assign(id, name, value) => EvalAssign(id, name, value, st, cx, fuel - 1)
      case Binary(left, op, right) => EvalBinary(left, op, right, st, cx, fuel - 1)
      case Call(callee, paren, arguments) => EvalCall(callee, paren, arguments, st, cx, fuel - 1)
      case Get(obj, name) => EvalGet(obj, name, st, cx, fuel - 1)
      case Grouping(inner) => EvalExpr(inner, st, cx, fuel - 1)
      case Literal(l) => Normal(LiteralValueOf(l), st)
      case Logical(left, op, right) => EvalLogical(left, op, right, st, cx, fuel - 1)
      case Set(obj, name, value) => EvalSet(obj, name, value, st, cx, fuel - 1)
      case Super(id, keyword, methodName) => EvalSuper(id, keyword, methodName, st, cx)
      case This(id, keyword) => LookupVariable(keyword, id, st, cx)
      case Unary(op, right) => EvalUnary(op, right, st, cx, fuel - 1)
      case Variable(id, name) => LookupVariable(name, id, st, cx)
  }

  /** Arguments, left to right; the first abrupt one stops the rest. */
  function EvalArgs(es: seq<Expr>, st: State, cx: Context, fuel: nat): (r: Outcome<seq<Value>>)
    ensures Step(st, r.st)
    ensures r.Normal? ==> |r.value| == |es|
    decreases fuel, 0, |es|
  {
    if |es| == 0 then Normal([], st)
    else
      match EvalExpr(es[0], st, cx, fuel)
      case Abrupt(sig, s1) => Abrupt(sig, s1)
      case Normal(v, s1) =>
        match EvalArgs(es[1..], s1, cx, fuel)
        case Abrupt(sig, s2) => Abrupt(sig, s2)
        case Normal(vs, s2) => Normal([v] + vs, s2)
  }

  /** `visitAssignExpr` (Interpreter.kt:28-39). */
  function EvalAssign(id: nat, name: Token, value: Expr, st: State, cx: Context, fuel: nat): (r: Outcome<Value>)
    ensures Step(st, r.st)
    decreases fuel, 1, 0
  {
    match EvalExpr(value, st, cx, fuel)
    case Abrupt(sig, s1) => Abrupt(sig, s1)
    case Normal(v, s1) => StoreVariable(name, id, v, s1, cx)
  }

  /** `visitBinaryExpr` (Interpreter.kt:41-95): both operands are evaluated, left first,
      before the operator looks at them. */
  function EvalBinary(left: Expr, op: Token, right: Expr, st: State, cx: Context, fuel: nat): (r: Outcome<Value>)
    ensures Step(st, r.st)
    decreases fuel, 1, 0
  {
    match EvalExpr(left, st, cx, fuel)
    case Abrupt(sig, s1) => Abrupt(sig, s1)
    case Normal(l, s1) =>
      match EvalExpr(right, s1, cx, fuel)
      case Abrupt(sig, s2) => Abrupt(sig, s2)
      case Normal(rv, s2) =>
        match BinaryOp(op, l, rv)
        case Success(v) => Normal(v, s2)
        case Failure(err) => Abrupt(Thrown(err), s2)
  }

  /** `visitCallExpr` (Interpreter.kt:97-113): callee, then every argument, then the
      callable and arity checks, then the call. */
  function EvalCall(callee: Expr, paren: Token, arguments: seq<Expr>, st: State, cx: Context, fuel: nat): (r: Outcome<Value>)
    ensures Step(st, r.st)
    decreases fuel, 8, 0
  {
    match EvalExpr(callee, st, cx, fuel)
    case Abrupt(sig, s1) => Abrupt(sig, s1)
    case Normal(f, s1) =>
      match EvalArgs(arguments, s1, cx, fuel)
      case Abrupt(sig, s2) => Abrupt(sig, s2)
      case Normal(args, s2) => Invoke(f, args, paren, s2, cx, fuel)
  }

  function Invoke(callee: Value, args: seq<Value>, paren: Token, st: State, cx: Context, fuel: nat): (r: Outcome<Value>)
    ensures Step(st, r.st)
    ensures CheckCall(callee, |args|, paren).Some? ==> r == Abrupt(Thrown(CheckCall(callee, |args|, paren).value), st)
    decreases fuel, 7, 0
  {
    match CheckCall(callee, |args|, paren)
    case Some(err) => Abrupt(Thrown(err), st)
    case None => CallValue(callee, args, st, cx, fuel)
  }

  /** `call` of the three kinds of callable. `clock` answers the context's reading, as
      a number of seconds (see `ClockReading`). */
  function CallValue(callee: Value, args: seq<Value>, st: State, cx: Context, fuel: nat): (r: Outcome<Value>)
    requires Arity(callee) == Some(|args|)
    ensures Step(st, r.st)
    decreases fuel, 6, 0
  {
    if callee.FunctionValue? then CallFunction(callee.fn, args, st, cx, fuel)
    else if callee.ClassValue? then CallClass(callee.klass, args, st, cx, fuel)
    else Normal(ClockReading(cx.millis), st)
  }

  /** `LoxClass.call` (LoxClass.kt:21-31): a new instance with no fields; its `init`, if
      the lineage has one, runs bound to the instance; the result is the instance
      whatever `init` returns. */
  function CallClass(k: LoxClass, args: seq<Value>, st: State, cx: Context, fuel: nat): (r: Outcome<Value>)
    requires |args| == ClassArity(k)
    ensures Step(st, r.st)
    ensures Sound(st) ==> st.next !in st.heap
    ensures r.Normal? ==> r.value == Instance(st.next, k)
    ensures FindMethod(k, "init").None? ==> r == Normal(Instance(st.next, k), Allocate(st))
    ensures FindMethod(k, "init").Some? ==>
              var init := FindMethod(k, "init").value;
              var inst := Instance(st.next, k);
              var st1 := Allocate(st);
              var c := CallFunction(LoxFunction(init.decl, st1.next, init.isInit), args,
                                    PushFrame(st1, init.closure, map["this" := inst]), cx, fuel);
              r == (if c.Normal? then Normal(inst, c.st) else Abrupt(c.signal, c.st))
    decreases fuel, 5, 0
  {
    var st1 := Allocate(st);
    match FindMethod(k, "init")
    case None => Normal(Instance(st.next, k), st1)
    case Some(init) => RunInit(init, Instance(st.next, k), args, st1, cx, fuel)
  }

  /** A new instance with no fields, under the counter's id (LoxInstance.kt:8). */
  function Allocate(st: State): (r: State)
    ensures Sound(st) ==> st.next !in st.heap
    ensures r.heap == st.heap[st.next := map[]] && r.next == st.next + 1
    ensures r.frames == st.frames && r.env == st.env && r.out == st.out
    ensures Step(st, r)
    ensures Sound(st) ==> Sound(r)
  {
    st.(heap := st.heap[st.next := map[]], next := st.next + 1)
  }

  /** `findMethod("init").bind(instance).call(arguments)`, keeping the instance as the
      result. */
  function RunInit(init: LoxFunction, inst: Value, args: seq<Value>, st: State, cx: Context, fuel: nat): (r: Outcome<Value>)
    requires |args| == |init.decl.params|
    ensures Step(st, r.st)
    ensures r.Normal? ==> r.value == inst
    ensures var c := CallFunction(LoxFunction(init.decl, st.next, init.isInit), args,
                                  PushFrame(st, init.closure, map["this" := inst]), cx, fuel);
            r == (if c.Normal? then Normal(inst, c.st) else Abrupt(c.signal, c.st))
    decreases fuel, 3, 0
  {
    var bound := Bind(init, inst, st);
    match CallFunction(bound.0, args, bound.1, cx, fuel)
    case Normal(_, s) => Normal(inst, s)
    case Abrupt(sig, s) => Abrupt(sig, s)
  }

  /** `LoxFunction.call` (LoxFunction.kt:16-33): the body runs as a block in a fresh
      frame inside the closure, holding the parameters; a `Return` signal becomes the
      result, and finishing the body yields nil. */
  function CallFunction(f: LoxFunction, args: seq<Value>, st: State, cx: Context, fuel: nat): (r: Outcome<Value>)
    requires |args| == |f.decl.params|
    ensures Step(st, r.st)
    ensures r.Abrupt? ==> !r.signal.Returned?
    ensures var body := ExecBlock(f.decl.body, st.next, PushFrame(st, f.closure, ParamBindings(f.decl.params, args)), cx, fuel);
            && (body.Normal? ==> r == Normal(Nil, body.st))
            && (body.Abrupt? && body.signal.Returned? ==> r == Normal(body.signal.value, body.st))
            && (body.Abrupt? && !body.signal.Returned? ==> r == Abrupt(body.signal, body.st))
    decreases fuel, 2, 0
  {
    var st1 := PushFrame(st, f.closure, ParamBindings(f.decl.params, args));
    match ExecBlock(f.decl.body, st.next, st1, cx, fuel)
    case Normal(_, s) => Normal(Nil, s)
    case Abrupt(Returned(v), s) => Normal(v, s)
    case Abrupt(sig, s) => Abrupt(sig, s)
  }

  /** `visitGetExpr` (Interpreter.kt:115-122) with `LoxInstance.get`. */
  function EvalGet(obj: Expr, name: Token, st: State, cx: Context, fuel: nat): (r: Outcome<Value>)
    ensures Step(st, r.st)
    decreases fuel, 1, 0
  {
    match EvalExpr(obj, st, cx, fuel)
    case Abrupt(sig, s1) => Abrupt(sig, s1)
    case Normal(o, s1) =>
      if o.Instance? then
        match InstanceGet(o.klass, FieldsOf(s1, o.ref), name)
        case Success(v) => Normal(v, s1)
        case Failure(err) => Abrupt(Thrown(err), s1)
      else Abrupt(Thrown(NotAnInstance(name)), s1)
  }

  /** `visitLogicalExpr` (Interpreter.kt:132-142): `or` keeps a truthy left value and
      any other operator keeps a falsey one, without evaluating the right side. */
  function EvalLogical(left: Expr, op: Token, right: Expr, st: State, cx: Context, fuel: nat): (r: Outcome<Value>)
    ensures Step(st, r.st)
    decreases fuel, 1, 0
  {
    match EvalExpr(left, st, cx, fuel)
    case Abrupt(sig, s1) => Abrupt(sig, s1)
    case Normal(l, s1) =>
      if (op.kind == OR) == IsTruthy(l) then Normal(l, s1)
      else EvalExpr(right, s1, cx, fuel)
  }

  /** `visitSetExpr` (Interpreter.kt:144-155): the object must be an instance before the
      value is evaluated; the field is then written and the value returned. */
  function EvalSet(obj: Expr, name: Token, value: Expr, st: State, cx: Context, fuel: nat): (r: Outcome<Value>)
    ensures Step(st, r.st)
    decreases fuel, 1, 0
  {
    match EvalExpr(obj, st, cx, fuel)
    case Abrupt(sig, s1) => Abrupt(sig, s1)
    case Normal(o, s1) =>
      if !o.Instance? then Abrupt(Thrown(NotAnInstance(name)), s1)
      else
        match EvalExpr(value, s1, cx, fuel)
        case Abrupt(sig, s2) => Abrupt(sig, s2)
        case Normal(v, s2) => Normal(v, SetField(s2, o.ref, name, v))
  }

  /** `LoxInstance.set` on instance `ref` of the heap. */
  function SetField(st: State, ref: nat, name: Token, v: Value): (r: State)
    ensures Step(st, r) && r.frames == st.frames && r.heap.Keys == st.heap.Keys
    ensures ref in st.heap ==> r.heap == st.heap[ref := InstanceSet(st.heap[ref], name, v)]
    ensures Sound(st) && ValueIn(v, st.frames.Keys) ==> Sound(r)
  {
    if ref in st.heap then st.(heap := st.heap[ref := InstanceSet(st.heap[ref], name, v)]) else st
  }

  /** `visitUnaryExpr` (Interpreter.kt:182-190). */
  function EvalUnary(op: Token, right: Expr, st: State, cx: Context, fuel: nat): (r: Outcome<Value>)
    ensures Step(st, r.st)
    decreases fuel, 1, 0
  {
    match EvalExpr(right, st, cx, fuel)
    case Abrupt(sig, s1) => Abrupt(sig, s1)
    case Normal(v, s1) => Normal(UnaryOp(op, v), s1)
  }

  /** `visitSuperExpr` (Interpreter.kt:157-180). With a recorded distance `d`, `super` is
      read at `d` and `this` at `d - 1`, and the method found from the superclass is
      bound to the instance. Without one the result is nil. The source passes the
      strings "super" and "this" where `getAt` takes a token; the `super` keyword token
      has the right lexeme, and for `this` a token with lexeme "this" on the same line
      stands in. */
  function EvalSuper(id: nat, keyword: Token, methodName: Token, st: State, cx: Context): (r: Outcome<Value>)
    ensures Step(st, r.st) && r.st.heap == st.heap
    ensures id !in cx.locals ==> r == Normal(Nil, st)
    ensures r.Normal? && id in cx.locals ==> r.value.FunctionValue? && r.value.fn.closure == st.next
    ensures id in cx.locals ==>
              var d := cx.locals[id];
              match Env.GetAt(st.frames, st.env, d, "super")
              case MissingFrame => r.Abrupt? && r.signal.Crashed? && r.st == st
              case Unbound => r == Abrupt(Thrown(UndefinedVariable(keyword)), st)
              case Bound(sc) =>
                match Env.GetAt(st.frames, st.env, (d as int) - 1, "this")
                case MissingFrame => r.Abrupt? && r.signal.Crashed? && r.st == st
                case Unbound => r == Abrupt(Thrown(UndefinedVariable(Token(THIS, "this", NilLit, keyword.line))), st)
                case Bound(inst) => r == SuperMethod(sc, inst, keyword, methodName, st)
  {
    if id !in cx.locals then Normal(Nil, st)
    else
      var d := cx.locals[id];
      match Env.GetAt(st.frames, st.env, d, "super")
      case MissingFrame => Abrupt(Crashed("no environment at the resolved distance"), st)
      case Unbound => Abrupt(Thrown(UndefinedVariable(keyword)), st)
      case Bound(sc) =>
        match Env.GetAt(st.frames, st.env, (d as int) - 1, "this")
        case MissingFrame => Abrupt(Crashed("no environment at the resolved distance"), st)
        case Unbound => Abrupt(Thrown(UndefinedVariable(Token(THIS, "this", NilLit, keyword.line))), st)
        case Bound(inst) => SuperMethod(sc, inst, keyword, methodName, st)
  }

  /** The rest of `visitSuperExpr` once `super` and `this` are read: a `super` binding
      that is not a class fails its cast; `this` must be an instance; the method must
      exist in the superclass's lineage. */
  function SuperMethod(sc: Value, inst: Value, keyword: Token, methodName: Token, st: State): (r: Outcome<Value>)
    ensures Step(st, r.st) && r.st.heap == st.heap
    ensures !sc.ClassValue? ==> r.Abrupt? && r.signal.Crashed?
    ensures sc.ClassValue? && !inst.Instance? ==>
              r == Abrupt(Thrown(RuntimeError(keyword, "Could not map class inheritance scope.")), st)
    ensures sc.ClassValue? && inst.Instance? ==>
              match FindMethod(sc.klass, methodName.lexeme)
              case None => r == Abrupt(Thrown(RuntimeError(keyword, "Undefined property " + methodName.lexeme + "'")), st)
              case Some(m) => r == Normal(FunctionValue(Bind(m, inst, st).0), Bind(m, inst, st).1)
  {
    if !sc.ClassValue? then Abrupt(Crashed("superclass is not a class"), st)
    else if !inst.Instance? then Abrupt(Thrown(RuntimeError(keyword, "Could not map class inheritance scope.")), st)
    else
      match FindMethod(sc.klass, methodName.lexeme)
      case Some(m) =>
        var bound := Bind(m, inst, st);
        Normal(FunctionValue(bound.0), bound.1)
      case None => Abrupt(Thrown(RuntimeError(keyword, "Undefined property " + methodName.lexeme + "'")), st)
  }

  // ---------------------------------------------------------------------------
  // Statements (Interpreter.kt:200-274, 333-343)

  function ExecStmt(s: Stmt, st: State, cx: Context, fuel: nat): (r: Outcome<()>)
    ensures Step(st, r.st)
    decreases fuel, 0, 0
  {
    if fuel == 0 then Abrupt(OutOfFuel, st)
    else
      match s
      case Block(statements) => ExecBlock(statements, st.next, PushFrame(st, st.env, map[]), cx, fuel - 1)
      case Class(name, superclass, methods) => ExecClass(name, superclass, methods, st, cx, fuel - 1)
      case Expression(e) => ExecExpression(e, st, cx, fuel - 1)
      case Function(decl) => Normal((), DefineHere(st, decl.name.lexeme, FunctionValue(LoxFunction(decl, st.env, false))))
      case If(condition, thenBranch, elseBranch) => ExecIf(condition, thenBranch, elseBranch, st, cx, fuel - 1)
      case Print(e) => ExecPrint(e, st, cx, fuel - 1)
      case Return(_, value) => ExecReturn(value, st, cx, fuel - 1)
      case Var(name, initializer) => ExecVar(name, initializer, st, cx, fuel - 1)
      case While(condition, body) => ExecWhile(condition, body, st, cx, fuel - 1)
  }

  /** `define` in the current frame. */
  function DefineHere(st: State, name: string, v: Value): (r: State)
    ensures Step(st, r) && r.out == st.out && r.heap == st.heap && r.next == st.next
    ensures r.frames == Env.Define(st.frames, st.env, name, v)
    ensures Sound(st) && ValueIn(v, st.frames.Keys) ==> Sound(r)
  {
    RebindKeepsSound(st, Env.Define(st.frames, st.env, name, v), st.env, name, v);
    st.(frames := Env.Define(st.frames, st.env, name, v))
  }

  /** Statements in order; the first abrupt one stops the rest. */
  function ExecStmts(ss: seq<Stmt>, st: State, cx: Context, fuel: nat): (r: Outcome<()>)
    ensures Step(st, r.st)
    decreases fuel, 0, |ss|
  {
    if |ss| == 0 then Normal((), st)
    else
      match ExecStmt(ss[0], st, cx, fuel)
      case Abrupt(sig, s1) => Abrupt(sig, s1)
      case Normal(_, s1) => ExecStmts(ss[1..], s1, cx, fuel)
  }

  /** `executeBlock` (Interpreter.kt:333-343): the statements run with `frame` as the
      current frame, and the previous current frame is restored however they end. */
  function ExecBlock(ss: seq<Stmt>, frame: nat, st: State, cx: Context, fuel: nat): (r: Outcome<()>)
    requires frame in st.frames
    ensures r.st.env == st.env
    ensures Step(st, r.st)
    ensures r.Abrupt? <==> ExecStmts(ss, st.(env := frame), cx, fuel).Abrupt?
    decreases fuel, 1, 0
  {
    var inner := ExecStmts(ss, st.(env := frame), cx, fuel);
    inner.(st := inner.st.(env := st.env))
  }

  /** `visitClassStmt` (Interpreter.kt:204-232). */
  function ExecClass(name: Token, superclass: Option<VariableExpr>, methods: seq<FunDecl>, st: State, cx: Context, fuel: nat): (r: Outcome<()>)
    ensures Step(st, r.st)
    decreases fuel, 1, 0
  {
    match superclass
    case None => DeclareClass(name, None, methods, st)
    case Some(sc) =>
      match EvalExpr(sc, st, cx, fuel)
      case Abrupt(sig, s1) => Abrupt(sig, s1)
      case Normal(v, s1) =>
        if v.ClassValue? then DeclareClass(name, Some(v.klass), methods, s1)
        else Abrupt(Thrown(RuntimeError(sc.name, "Superclass must be a class.")), s1)
  }

  /** `visitExpressionStmt` (Interpreter.kt:234-236): the value is dropped. */
  function ExecExpression(e: Expr, st: State, cx: Context, fuel: nat): (r: Outcome<()>)
    ensures Step(st, r.st)
    decreases fuel, 1, 0
  {
    match EvalExpr(e, st, cx, fuel)
    case Abrupt(sig, s1) => Abrupt(sig, s1)
    case Normal(_, s1) => Normal((), s1)
  }

  /** `visitIfStmt` (Interpreter.kt:243-249). */
  function ExecIf(condition: Expr, thenBranch: Stmt, elseBranch: Option<Stmt>, st: State, cx: Context, fuel: nat): (r: Outcome<()>)
    ensures Step(st, r.st)
    decreases fuel, 1, 0
  {
    match EvalExpr(condition, st, cx, fuel)
    case Abrupt(sig, s1) => Abrupt(sig, s1)
    case Normal(c, s1) =>
      if IsTruthy(c) then ExecStmt(thenBranch, s1, cx, fuel)
      else if elseBranch.Some? then ExecStmt(elseBranch.value, s1, cx, fuel)
      else Normal((), s1)
  }

  /** `visitPrintStmt` (Interpreter.kt:251-254): the value's text is appended to the
      output. */
  function ExecPrint(e: Expr, st: State, cx: Context, fuel: nat): (r: Outcome<()>)
    ensures Step(st, r.st)
    ensures r.Normal? ==> |r.st.out| > |st.out|
    decreases fuel, 1, 0
  {
    match EvalExpr(e, st, cx, fuel)
    case Abrupt(sig, s1) => Abrupt(sig, s1)
    case Normal(v, s1) => Normal((), s1.(out := s1.out + [Stringify(v)]))
  }

  /** `visitReturnStmt` (Interpreter.kt:256-258): always ends abruptly, with the value
      (nil when there is none) or with whatever stopped its evaluation. */
  function ExecReturn(value: Option<Expr>, st: State, cx: Context, fuel: nat): (r: Outcome<()>)
    ensures Step(st, r.st)
    ensures r.Abrupt?
    ensures value.None? ==> r == Abrupt(Returned(Nil), st)
    decreases fuel, 1, 0
  {
    match value
    case None => Abrupt(Returned(Nil), st)
    case Some(e) =>
      match EvalExpr(e, st, cx, fuel)
      case Abrupt(sig, s1) => Abrupt(sig, s1)
      case Normal(v, s1) => Abrupt(Returned(v), s1)
  }

  /** `visitVarStmt` (Interpreter.kt:260-268): nil without an initializer. */
  function ExecVar(name: Token, initializer: Option<Expr>, st: State, cx: Context, fuel: nat): (r: Outcome<()>)
    ensures Step(st, r.st)
    ensures initializer.None? ==> r == Normal((), DefineHere(st, name.lexeme, Nil))
    decreases fuel, 1, 0
  {
    match initializer
    case None => Normal((), DefineHere(st, name.lexeme, Nil))
    case Some(e) =>
      match EvalExpr(e, st, cx, fuel)
      case Abrupt(sig, s1) => Abrupt(sig, s1)
      case Normal(v, s1) => Normal((), DefineHere(s1, name.lexeme, v))
  }

  /** `visitWhileStmt` (Interpreter.kt:270-274): one iteration per unit of fuel. */
  function ExecWhile(condition: Expr, body: Stmt, st: State, cx: Context, fuel: nat): (r: Outcome<()>)
    ensures Step(st, r.st)
    decreases fuel, 1, 0
  {
    match EvalExpr(condition, st, cx, fuel)
    case Abrupt(sig, s1) => Abrupt(sig, s1)
    case Normal(c, s1) =>
      if !IsTruthy(c) then Normal((), s1)
      else
        match ExecStmt(body, s1, cx, fuel)
        case Abrupt(sig, s2) => Abrupt(sig, s2)
        case Normal(_, s2) => if fuel == 0 then Abrupt(OutOfFuel, s2) else ExecWhile(condition, body, s2, cx, fuel - 1)
  }

  // ---------------------------------------------------------------------------
  // Properties of evaluation

  /** `or` with a truthy left value, and `and` with a falsey one, is the left operand's
      outcome itself: the right operand is never evaluated. Otherwise the result is the
      right operand's, evaluated after the left (Interpreter.kt:132-142). */
  lemma ShortCircuit(left: Expr, op: Token, right: Expr, st: State, cx: Context, fuel: nat)
    requires fuel > 0 && EvalExpr(left, st, cx, fuel - 1).Normal?
    ensures var l := EvalExpr(left, st, cx, fuel - 1);
            (op.kind == OR) == IsTruthy(l.value) ==> EvalExpr(Logical(left, op, right), st, cx, fuel) == l
    ensures var l := EvalExpr(left, st, cx, fuel - 1);
            (op.kind == OR) != IsTruthy(l.value) ==>
              EvalExpr(Logical(left, op, right), st, cx, fuel) == EvalExpr(right, l.st, cx, fuel - 1)
  {
  }

  /** Both operands of a binary operator are evaluated, left first, before the operator
      looks at them (Interpreter.kt:41-95). */
  lemma BinaryEvaluatesOperandsFirst(left: Expr, op: Token, right: Expr, st: State, cx: Context, fuel: nat)
    requires fuel > 0 && EvalExpr(left, st, cx, fuel - 1).Normal?
    requires EvalExpr(right, EvalExpr(left, st, cx, fuel - 1).st, cx, fuel - 1).Normal?
    ensures var l := EvalExpr(left, st, cx, fuel - 1);
            var rv := EvalExpr(right, l.st, cx, fuel - 1);
            EvalExpr(Binary(left, op, right), st, cx, fuel)
            == match BinaryOp(op, l.value, rv.value)
               case Success(v) => Normal(v, rv.st)
               case Failure(err) => Abrupt(Thrown(err), rv.st)
  {
  }

  /** Reading a property: only an instance has properties, and an instance answers
      through `LoxInstance.get` on its current fields (Interpreter.kt:115-122). */
  lemma GetReadsInstance(obj: Expr, name: Token, st: State, cx: Context, fuel: nat)
    requires fuel > 0 && EvalExpr(obj, st, cx, fuel - 1).Normal?
    ensures var o := EvalExpr(obj, st, cx, fuel - 1);
            !o.value.Instance? ==> EvalExpr(Get(obj, name), st, cx, fuel) == Abrupt(Thrown(NotAnInstance(name)), o.st)
    ensures var o := EvalExpr(obj, st, cx, fuel - 1);
            o.value.Instance? ==>
              EvalExpr(Get(obj, name), st, cx, fuel)
              == match InstanceGet(o.value.klass, FieldsOf(o.st, o.value.ref), name)
                 case Success(v) => Normal(v, o.st)
                 case Failure(err) => Abrupt(Thrown(err), o.st)
  {
  }

  /** The frame a call runs in (LoxFunction.kt:16-24): a fresh frame whose parent is the
      closure, in which a parameter not repeated later in the list holds the argument at
      its position; the closure frame itself is left as it was. */
  lemma CallFrameBindsParameters(f: LoxFunction, args: seq<Value>, st: State, i: nat)
    requires |args| == |f.decl.params| && Sound(st) && f.closure in st.frames
    requires i < |args| && forall j :: i < j < |args| ==> f.decl.params[j].lexeme != f.decl.params[i].lexeme
    ensures var st1 := PushFrame(st, f.closure, ParamBindings(f.decl.params, args));
            && st.next !in st.frames
            && Env.Parent(st1.frames, st.next) == Some(f.closure)
            && st1.frames[f.closure] == st.frames[f.closure]
            && Env.Get(st1.frames, st.next, f.decl.params[i].lexeme) == Some(args[i])
  {
  }

  /** Assigning a property of a non-instance fails before the value is evaluated: the
      state is the one the object's evaluation left (Interpreter.kt:144-149). */
  lemma SetRejectsNonInstance(obj: Expr, name: Token, value: Expr, st: State, cx: Context, fuel: nat)
    requires fuel > 0
    requires EvalExpr(obj, st, cx, fuel - 1).Normal? && !EvalExpr(obj, st, cx, fuel - 1).value.Instance?
    ensures EvalExpr(Set(obj, name, value), st, cx, fuel)
            == Abrupt(Thrown(NotAnInstance(name)), EvalExpr(obj, st, cx, fuel - 1).st)
  {
  }

  /** A call checks callability and arity only after the callee and every argument have
      been evaluated, in that order (Interpreter.kt:97-110). */
  lemma CallChecksAfterArguments(callee: Expr, paren: Token, arguments: seq<Expr>, st: State, cx: Context, fuel: nat)
    requires fuel > 0
    requires EvalExpr(callee, st, cx, fuel - 1).Normal?
    requires EvalArgs(arguments, EvalExpr(callee, st, cx, fuel - 1).st, cx, fuel - 1).Normal?
    ensures var f := EvalExpr(callee, st, cx, fuel - 1);
            var args := EvalArgs(arguments, f.st, cx, fuel - 1);
            CheckCall(f.value, |args.value|, paren).Some? ==>
              EvalExpr(Call(callee, paren, arguments), st, cx, fuel)
              == Abrupt(Thrown(CheckCall(f.value, |args.value|, paren).value), args.st)
  {
  }

  /** A literal evaluates to the value it denotes and changes nothing
      (Interpreter.kt:128-130). */
  lemma LiteralEvaluates(l: LiteralValue, st: State, cx: Context, fuel: nat)
    requires fuel > 0
    ensures var r := EvalExpr(Literal(l), st, cx, fuel);
            && r.Normal? && r.st == st
            && (l.NilLit? ==> r.value == Nil)
            && (l.BoolLit? ==> r.value == Bool(l.b))
            && (l.NumLit? ==> r.value == Num(l.n))
            && (l.StrLit? ==> r.value == Str(l.s))
  {
  }

  /** Parentheses change nothing: a grouping has its inner expression's outcome
      (Interpreter.kt:124-126). */
  lemma GroupingIsInner(inner: Expr, st: State, cx: Context, fuel: nat)
    requires fuel > 0
    ensures EvalExpr(Grouping(inner), st, cx, fuel) == EvalExpr(inner, st, cx, fuel - 1)
  {
  }

  /** A variable, and `this`, are read through `lookupVariable` with the reference's own
      id, and reading changes nothing (Interpreter.kt:192-198, 324-331). */
  lemma VariableReads(id: nat, name: Token, st: State, cx: Context, fuel: nat)
    requires fuel > 0
    ensures EvalExpr(Variable(id, name), st, cx, fuel) == LookupVariable(name, id, st, cx)
    ensures EvalExpr(This(id, name), st, cx, fuel) == LookupVariable(name, id, st, cx)
    ensures EvalExpr(Variable(id, name), st, cx, fuel).st == st
  {
  }

  /** A `super` expression is visitSuperExpr on its own id, keyword and method name
      (Interpreter.kt:157-180); EvalSuper's contract says where it reads. */
  lemma SuperReads(id: nat, keyword: Token, methodName: Token, st: State, cx: Context, fuel: nat)
    requires fuel > 0
    ensures EvalExpr(Super(id, keyword, methodName), st, cx, fuel) == EvalSuper(id, keyword, methodName, st, cx)
  {
  }

  /** An assignment evaluates its value first; an abrupt value is the outcome, and
      otherwise the value is stored through the reference's id and is the result
      (Interpreter.kt:28-39). */
  lemma AssignStores(id: nat, name: Token, value: Expr, st: State, cx: Context, fuel: nat)
    requires fuel > 0
    ensures var v := EvalExpr(value, st, cx, fuel - 1);
            var r := EvalExpr(Assign(id, name, value), st, cx, fuel);
            && (v.Abrupt? ==> r == Abrupt(v.signal, v.st))
            && (v.Normal? ==> r == StoreVariable(name, id, v.value, v.st, cx))
            && (r.Normal? ==> v.Normal? && r.value == v.value)
  {
  }

  /** Reading the assigned variable right after an assignment completes, through the
      same reference id, yields the value assigned. */
  lemma AssignThenRead(id: nat, name: Token, value: Expr, st: State, cx: Context, fuel: nat, fuel': nat)
    requires fuel > 0 && fuel' > 0 && EvalExpr(Assign(id, name, value), st, cx, fuel).Normal?
    ensures var r := EvalExpr(Assign(id, name, value), st, cx, fuel);
            EvalExpr(Variable(id, name), r.st, cx, fuel') == Normal(r.value, r.st)
  {
    var v := EvalExpr(value, st, cx, fuel - 1);
    AssignStores(id, name, value, st, cx, fuel);
    StoreThenLookup(name, id, v.value, v.st, cx);
  }

  /** A unary operator applies to its operand's value; an abrupt operand is the outcome
      (Interpreter.kt:182-190). */
  lemma UnaryApplies(op: Token, right: Expr, st: State, cx: Context, fuel: nat)
    requires fuel > 0
    ensures var v := EvalExpr(right, st, cx, fuel - 1);
            var r := EvalExpr(Unary(op, right), st, cx, fuel);
            && (v.Abrupt? ==> r == Abrupt(v.signal, v.st))
            && (v.Normal? ==> r == Normal(UnaryOp(op, v.value), v.st))
  {
  }

  /** Assigning a property of an instance evaluates the value after the object, writes
      the field on that instance and yields the value; an abrupt value is the outcome
      (Interpreter.kt:144-155). */
  lemma SetWritesField(obj: Expr, name: Token, value: Expr, st: State, cx: Context, fuel: nat)
    requires fuel > 0
    requires EvalExpr(obj, st, cx, fuel - 1).Normal? && EvalExpr(obj, st, cx, fuel - 1).value.Instance?
    ensures var o := EvalExpr(obj, st, cx, fuel - 1);
            var v := EvalExpr(value, o.st, cx, fuel - 1);
            var r := EvalExpr(Set(obj, name, value), st, cx, fuel);
            && (v.Abrupt? ==> r == Abrupt(v.signal, v.st))
            && (v.Normal? ==> r == Normal(v.value, SetField(v.st, o.value.ref, name, v.value)))
  {
  }

  /** After a property assignment on an instance that exists, reading the same property
      of that instance yields the value assigned. */
  lemma SetThenGetField(obj: Expr, name: Token, value: Expr, st: State, cx: Context, fuel: nat)
    requires fuel > 0
    requires EvalExpr(obj, st, cx, fuel - 1).Normal? && EvalExpr(obj, st, cx, fuel - 1).value.Instance?
    requires EvalExpr(Set(obj, name, value), st, cx, fuel).Normal?
    requires EvalExpr(obj, st, cx, fuel - 1).value.ref in EvalExpr(Set(obj, name, value), st, cx, fuel).st.heap
    ensures var o := EvalExpr(obj, st, cx, fuel - 1).value;
            var r := EvalExpr(Set(obj, name, value), st, cx, fuel);
            InstanceGet(o.klass, FieldsOf(r.st, o.ref), name) == Success(r.value)
  {
    var o := EvalExpr(obj, st, cx, fuel - 1);
    var v := EvalExpr(value, o.st, cx, fuel - 1);
    SetWritesField(obj, name, value, st, cx, fuel);
    assert o.value.ref in v.st.heap;
    SetThenGet(o.value.klass, v.st.heap[o.value.ref], name, v.value, name);
  }

  /** A call whose callee and arguments evaluate, and which passes the callable and
      arity checks, runs the callable: a function's body, a class's construction, or
      the clock's reading (Interpreter.kt:97-113). */
  lemma CallDispatches(callee: Expr, paren: Token, arguments: seq<Expr>, st: State, cx: Context, fuel: nat)
    requires fuel > 0
    requires EvalExpr(callee, st, cx, fuel - 1).Normal?
    requires EvalArgs(arguments, EvalExpr(callee, st, cx, fuel - 1).st, cx, fuel - 1).Normal?
    requires CheckCall(EvalExpr(callee, st, cx, fuel - 1).value,
                       |EvalArgs(arguments, EvalExpr(callee, st, cx, fuel - 1).st, cx, fuel - 1).value|, paren).None?
    ensures var f := EvalExpr(callee, st, cx, fuel - 1);
            var args := EvalArgs(arguments, f.st, cx, fuel - 1);
            var r := EvalExpr(Call(callee, paren, arguments), st, cx, fuel);
            && (f.value.FunctionValue? ==> r == CallFunction(f.value.fn, args.value, args.st, cx, fuel - 1))
            && (f.value.ClassValue? ==> r == CallClass(f.value.klass, args.value, args.st, cx, fuel - 1))
            && (f.value.Clock? ==> r == Normal(ClockReading(cx.millis), args.st))
  {
    var f := EvalExpr(callee, st, cx, fuel - 1);
    var args := EvalArgs(arguments, f.st, cx, fuel - 1);
    assert EvalExpr(Call(callee, paren, arguments), st, cx, fuel) == EvalCall(callee, paren, arguments, st, cx, fuel - 1);
    assert EvalCall(callee, paren, arguments, st, cx, fuel - 1) == Invoke(f.value, args.value, paren, args.st, cx, fuel - 1);
    assert Invoke(f.value, args.value, paren, args.st, cx, fuel - 1) == CallValue(f.value, args.value, args.st, cx, fuel - 1);
  }

  /** The state before argument `i` is evaluated: the arguments before it have run, in
      order. */
  function ArgState(es: seq<Expr>, st: State, cx: Context, fuel: nat, i: nat): State
    requires i <= |es|
    decreases i
  {
    if i == 0 then st else ArgState(es[1..], EvalExpr(es[0], st, cx, fuel).st, cx, fuel, i - 1)
  }

  /** Arguments are evaluated left to right (Interpreter.kt:100): when all complete,
      value `i` is argument `i`'s value in the state the earlier arguments left; when one
      is abrupt, the earlier ones completed and its outcome is the outcome. */
  lemma {:induction false} EvalArgsInOrder(es: seq<Expr>, st: State, cx: Context, fuel: nat)
    ensures var r := EvalArgs(es, st, cx, fuel);
            r.Normal? ==>
              && r.st == ArgState(es, st, cx, fuel, |es|)
              && forall i :: 0 <= i < |es| ==>
                   EvalExpr(es[i], ArgState(es, st, cx, fuel, i), cx, fuel) == Normal(r.value[i], ArgState(es, st, cx, fuel, i + 1))
    ensures var r := EvalArgs(es, st, cx, fuel);
            r.Abrupt? ==>
              exists i :: 0 <= i < |es|
                && (forall j :: 0 <= j < i ==> EvalExpr(es[j], ArgState(es, st, cx, fuel, j), cx, fuel).Normal?)
                && EvalExpr(es[i], ArgState(es, st, cx, fuel, i), cx, fuel) == Abrupt(r.signal, r.st)
    decreases |es|
  {
    if |es| > 0 {
      var e0 := EvalExpr(es[0], st, cx, fuel);
      if e0.Normal? {
        EvalArgsInOrder(es[1..], e0.st, cx, fuel);
        ArgStateShift(es, st, cx, fuel);
        var r := EvalArgs(es, st, cx, fuel);
        var rest := EvalArgs(es[1..], e0.st, cx, fuel);
        if r.Abrupt? {
          var i :| 0 <= i < |es[1..]|
                && (forall j :: 0 <= j < i ==> EvalExpr(es[1..][j], ArgState(es[1..], e0.st, cx, fuel, j), cx, fuel).Normal?)
                && EvalExpr(es[1..][i], ArgState(es[1..], e0.st, cx, fuel, i), cx, fuel) == Abrupt(rest.signal, rest.st);
          assert EvalExpr(es[i + 1], ArgState(es, st, cx, fuel, i + 1), cx, fuel) == Abrupt(r.signal, r.st);
          forall j | 0 <= j < i + 1
            ensures EvalExpr(es[j], ArgState(es, st, cx, fuel, j), cx, fuel).Normal?
          {
            if j > 0 {
              assert es[j] == es[1..][j - 1];
            }
          }
        } else {
          forall i | 0 <= i < |es|
            ensures EvalExpr(es[i], ArgState(es, st, cx, fuel, i), cx, fuel) == Normal(r.value[i], ArgState(es, st, cx, fuel, i + 1))
          {
            if i > 0 {
              assert es[i] == es[1..][i - 1];
              assert r.value[i] == rest.value[i - 1];
            }
          }
        }
      } else {
        assert EvalExpr(es[0], ArgState(es, st, cx, fuel, 0), cx, fuel) == Abrupt(EvalArgs(es, st, cx, fuel).signal, EvalArgs(es, st, cx, fuel).st);
      }
    }
  }

  /** The states of the arguments after the first are those of the rest, started where
      the first left off. */
  lemma ArgStateShift(es: seq<Expr>, st: State, cx: Context, fuel: nat)
    requires |es| > 0
    ensures forall i :: 1 <= i <= |es| ==>
              ArgState(es, st, cx, fuel, i) == ArgState(es[1..], EvalExpr(es[0], st, cx, fuel).st, cx, fuel, i - 1)
  {
  }

  /** A class declaration whose superclass, if any, is a class completes; the current
      frame is unchanged and binds the name to the new class (Interpreter.kt:204-232). */
  lemma ClassDeclarationBindsName(name: Token, superclass: Option<VariableExpr>, methods: seq<FunDecl>,
                                  st: State, cx: Context, fuel: nat)
    requires fuel > 0 && Sound(st)
    requires superclass.Some? ==>
               EvalExpr(superclass.value, st, cx, fuel - 1).Normal? && EvalExpr(superclass.value, st, cx, fuel - 1).value.ClassValue?
    ensures var r := ExecStmt(Class(name, superclass, methods), st, cx, fuel);
            && r.Normal? && r.st.env == st.env
            && Env.Get(r.st.frames, st.env, name.lexeme).Some?
            && Env.Get(r.st.frames, st.env, name.lexeme).value.ClassValue?
            && Env.Get(r.st.frames, st.env, name.lexeme).value.klass.name == name.lexeme
  ensures var r := ExecStmt(Class(name, superclass, methods), st, cx, fuel);
          var sc := if superclass.Some? then Some(EvalExpr(superclass.value, st, cx, fuel - 1).value.klass) else None;
          Env.Get(r.st.frames, st.env, name.lexeme)
          == Some(ClassValue(LoxClass(if sc.Some? then st.next + 1 else st.next, name.lexeme, sc,
                                      MethodTable(methods, if sc.Some? then st.next else st.env))))
  ensures superclass.Some? ==>
            var r := ExecStmt(Class(name, superclass, methods), st, cx, fuel);
            && st.next in r.st.frames
            && r.st.frames[st.next]
               == Env.Frame(map["super" := EvalExpr(superclass.value, st, cx, fuel - 1).value], Some(st.env))
  {
    var sc := if superclass.Some? then Some(EvalExpr(superclass.value, st, cx, fuel - 1).value.klass) else None;
    ClassStmtDeclares(name, superclass, methods, st, cx, fuel);
    DeclaredClassBound(name, sc, methods, st);
  }

  /** The class statement is DeclareClass of the evaluated superclass. */
  lemma ClassStmtDeclares(name: Token, superclass: Option<VariableExpr>, methods: seq<FunDecl>,
                          st: State, cx: Context, fuel: nat)
    requires fuel > 0
    requires superclass.Some? ==>
               EvalExpr(superclass.value, st, cx, fuel - 1).Normal? && EvalExpr(superclass.value, st, cx, fuel - 1).value.ClassValue?
    ensures ExecStmt(Class(name, superclass, methods), st, cx, fuel)
            == DeclareClass(name, if superclass.Some? then Some(EvalExpr(superclass.value, st, cx, fuel - 1).value.klass) else None, methods, st)
  {
    if superclass.Some? {
      SubclassStmtDeclares(name, superclass.value, methods, st, cx, fuel);
    } else {
      assert ExecStmt(Class(name, None, methods), st, cx, fuel) == ExecClass(name, None, methods, st, cx, fuel - 1);
    }
  }

  lemma SubclassStmtDeclares(name: Token, sc: VariableExpr, methods: seq<FunDecl>, st: State, cx: Context, fuel: nat)
    requires fuel > 0
    requires EvalExpr(sc, st, cx, fuel - 1).Normal? && EvalExpr(sc, st, cx, fuel - 1).value.ClassValue?
    ensures ExecStmt(Class(name, Some(sc), methods), st, cx, fuel)
            == DeclareClass(name, Some(EvalExpr(sc, st, cx, fuel - 1).value.klass), methods, st)
  {
    assert ExecStmt(Class(name, Some(sc), methods), st, cx, fuel) == ExecClass(name, Some(sc), methods, st, cx, fuel - 1);
    ClassEvaluatesSuperclass(name, Some(sc), methods, st, cx, fuel - 1);
  }

  /** With a class-valued superclass, or none, the declaration is DeclareClass of it, in
      the state it started in: reading the superclass's name changes nothing. */
  lemma ClassEvaluatesSuperclass(name: Token, superclass: Option<VariableExpr>, methods: seq<FunDecl>,
                                 st: State, cx: Context, fuel: nat)
    requires superclass.Some? ==>
               EvalExpr(superclass.value, st, cx, fuel).Normal? && EvalExpr(superclass.value, st, cx, fuel).value.ClassValue?
    ensures ExecClass(name, superclass, methods, st, cx, fuel)
            == DeclareClass(name, if superclass.Some? then Some(EvalExpr(superclass.value, st, cx, fuel).value.klass) else None, methods, st)
  {
    if superclass.Some? && fuel > 0 {
      VariableReads(superclass.value.id, superclass.value.name, st, cx, fuel);
    }
  }

  /** The binding DeclareClass leaves in the current frame, and its `super` frame. */
  lemma DeclaredClassBound(name: Token, sc: Option<LoxClass>, methods: seq<FunDecl>, st: State)
    requires Sound(st)
    ensures var r := DeclareClass(name, sc, methods, st);
            && r.Normal? && r.st.env == st.env
            && Env.Get(r.st.frames, st.env, name.lexeme)
               == Some(ClassValue(LoxClass(if sc.Some? then st.next + 1 else st.next, name.lexeme, sc,
                                           MethodTable(methods, if sc.Some? then st.next else st.env))))
            && (sc.Some? ==> r.st.frames[st.next] == Env.Frame(map["super" := ClassValue(sc.value)], Some(st.env)))
  {
  }

  /** A block runs its statements with a fresh frame as the current frame, whose parent
      is the current frame; the current frame is current again however the block ends
      (Interpreter.kt:200-201, 333-343). */
  lemma BlockRunsInChildFrame(ss: seq<Stmt>, st: State, cx: Context, fuel: nat)
    requires fuel > 0
    ensures Sound(st) ==> st.next !in st.frames
    ensures var child := st.(frames := st.frames[st.next := Env.Frame(map[], Some(st.env))], next := st.next + 1, env := st.next);
            var inner := ExecStmts(ss, child, cx, fuel - 1);
            ExecStmt(Block(ss), st, cx, fuel) == inner.(st := inner.st.(env := st.env))
  {
  }

  /** A function declaration completes and binds, in the current frame, a function
      closing over the current frame; nothing else changes (Interpreter.kt:238-241). */
  lemma FunctionCapturesEnv(d: FunDecl, st: State, cx: Context, fuel: nat)
    requires fuel > 0 && st.env in st.frames
    ensures var r := ExecStmt(Function(d), st, cx, fuel);
            && r.Normal? && r.st.env == st.env && r.st.next == st.next && r.st.heap == st.heap && r.st.out == st.out
            && Env.Get(r.st.frames, st.env, d.name.lexeme) == Some(FunctionValue(LoxFunction(d, st.env, false)))
            && (forall f :: f in st.frames && f != st.env ==> r.st.frames[f] == st.frames[f])
  {
    Env.DefineThenGet(st.frames, st.env, d.name.lexeme, FunctionValue(LoxFunction(d, st.env, false)));
  }

  /** A superclass expression whose value is not a class is rejected, at the
      superclass's name (Interpreter.kt:207-211). */
  lemma SuperclassMustBeClass(name: Token, sc: VariableExpr, methods: seq<FunDecl>, st: State, cx: Context, fuel: nat)
    requires fuel > 0
    requires EvalExpr(sc, st, cx, fuel - 1).Normal? && !EvalExpr(sc, st, cx, fuel - 1).value.ClassValue?
    ensures ExecStmt(Class(name, Some(sc), methods), st, cx, fuel)
            == Abrupt(Thrown(RuntimeError(sc.name, "Superclass must be a class.")), EvalExpr(sc, st, cx, fuel - 1).st)
  {
  }

  /** An expression statement is its expression's evaluation with the value dropped
      (Interpreter.kt:234-236). */
  lemma ExpressionDropsValue(e: Expr, st: State, cx: Context, fuel: nat)
    requires fuel > 0
    ensures var v := EvalExpr(e, st, cx, fuel - 1);
            ExecStmt(Expression(e), st, cx, fuel)
            == if v.Normal? then Normal((), v.st) else Abrupt(v.signal, v.st)
  {
  }

  /** `print` appends exactly the text of its expression's value to the output and
      changes nothing else the evaluation left; an abrupt evaluation prints nothing
      (Interpreter.kt:251-254). */
  lemma PrintAppendsText(e: Expr, st: State, cx: Context, fuel: nat)
    requires fuel > 0
    ensures var v := EvalExpr(e, st, cx, fuel - 1);
            var r := ExecStmt(Print(e), st, cx, fuel);
            && (r.Normal? <==> v.Normal?)
            && (v.Normal? ==> r.st.out == v.st.out + [Stringify(v.value)])
            && (v.Normal? ==> r.st.frames == v.st.frames && r.st.heap == v.st.heap && r.st.next == v.st.next)
            && (v.Abrupt? ==> r == Abrupt(v.signal, v.st))
  {
  }

  /** `return` always ends abruptly: with a `Return` signal carrying the value (nil
      without an expression), or with whatever stopped the value's evaluation
      (Interpreter.kt:256-258). */
  lemma ReturnCarriesValue(keyword: Token, value: Option<Expr>, st: State, cx: Context, fuel: nat)
    requires fuel > 0
    ensures ExecStmt(Return(keyword, value), st, cx, fuel).Abrupt?
    ensures value.None? ==> ExecStmt(Return(keyword, value), st, cx, fuel) == Abrupt(Returned(Nil), st)
    ensures value.Some? ==>
              var v := EvalExpr(value.value, st, cx, fuel - 1);
              ExecStmt(Return(keyword, value), st, cx, fuel)
              == if v.Normal? then Abrupt(Returned(v.value), v.st) else Abrupt(v.signal, v.st)
  {
  }

  /** `var` binds the name in the current frame to the initializer's value, or to nil
      without one; afterwards the name reads back as that value (Interpreter.kt:260-268). */
  lemma VarBindsValue(name: Token, initializer: Option<Expr>, st: State, cx: Context, fuel: nat)
    requires fuel > 0 && Sound(st)
    ensures initializer.None? ==>
              var r := ExecStmt(Var(name, initializer), st, cx, fuel);
              r.Normal? && Env.Get(r.st.frames, st.env, name.lexeme) == Some(Nil)
    ensures initializer.Some? ==>
              var v := EvalExpr(initializer.value, st, cx, fuel - 1);
              var r := ExecStmt(Var(name, initializer), st, cx, fuel);
              && (r.Normal? <==> v.Normal?)
              && (v.Normal? ==> Env.Get(r.st.frames, st.env, name.lexeme) == Some(v.value))
              && (v.Abrupt? ==> r == Abrupt(v.signal, v.st))
  {
    if initializer.None? {
      Env.DefineThenGet(st.frames, st.env, name.lexeme, Nil);
    } else {
      var v := EvalExpr(initializer.value, st, cx, fuel - 1);
      if v.Normal? {
        Env.DefineThenGet(v.st.frames, st.env, name.lexeme, v.value);
      }
    }
  }

  /** `if` runs the then-branch exactly when the condition's value is truthy, the
      else-branch, if any, otherwise, and both in the state the condition left
      (Interpreter.kt:243-249). */
  lemma IfChoosesByTruthiness(condition: Expr, thenBranch: Stmt, elseBranch: Option<Stmt>, st: State, cx: Context, fuel: nat)
    requires fuel > 0
    ensures var c := EvalExpr(condition, st, cx, fuel - 1);
            var r := ExecStmt(If(condition, thenBranch, elseBranch), st, cx, fuel);
            && (c.Abrupt? ==> r == Abrupt(c.signal, c.st))
            && (c.Normal? && IsTruthy(c.value) ==> r == ExecStmt(thenBranch, c.st, cx, fuel - 1))
            && (c.Normal? && !IsTruthy(c.value) && elseBranch.Some? ==> r == ExecStmt(elseBranch.value, c.st, cx, fuel - 1))
            && (c.Normal? && !IsTruthy(c.value) && elseBranch.None? ==> r == Normal((), c.st))
  {
  }

  /** A `while` whose condition is falsey finishes without running the body
      (Interpreter.kt:270-274). */
  lemma WhileStopsWhenFalsey(condition: Expr, body: Stmt, st: State, cx: Context, fuel: nat)
    requires fuel > 0
    requires EvalExpr(condition, st, cx, fuel - 1).Normal? && !IsTruthy(EvalExpr(condition, st, cx, fuel - 1).value)
    ensures ExecStmt(While(condition, body), st, cx, fuel) == Normal((), EvalExpr(condition, st, cx, fuel - 1).st)
  {
  }

  /** A `while` whose condition is truthy runs the body once and is then the same loop
      again, from the state the body left, with one unit of fuel less; a body that ends
      abruptly ends the loop the same way (Interpreter.kt:270-274). */
  lemma WhileUnrolls(condition: Expr, body: Stmt, st: State, cx: Context, fuel: nat)
    requires fuel > 0
    requires EvalExpr(condition, st, cx, fuel - 1).Normal? && IsTruthy(EvalExpr(condition, st, cx, fuel - 1).value)
    ensures var c := EvalExpr(condition, st, cx, fuel - 1);
            var b := ExecStmt(body, c.st, cx, fuel - 1);
            && (b.Abrupt? ==> ExecStmt(While(condition, body), st, cx, fuel) == Abrupt(b.signal, b.st))
            && (b.Normal? ==> ExecStmt(While(condition, body), st, cx, fuel) == ExecStmt(While(condition, body), b.st, cx, fuel - 1))
  {
    var c := EvalExpr(condition, st, cx, fuel - 1);
    var b := ExecStmt(body, c.st, cx, fuel - 1);
    assert ExecStmt(While(condition, body), st, cx, fuel) == ExecWhile(condition, body, st, cx, fuel - 1);
    if b.Normal? {
      assert fuel - 1 > 0;
      assert ExecStmt(While(condition, body), b.st, cx, fuel - 1) == ExecWhile(condition, body, b.st, cx, fuel - 2);
    }
  }

  /** `clock() - clock()` as the source writes `clock`: a `Long` is not a Lox number, so
      the subtraction fails. */
  lemma ClockElapsedFails(minus: Token, later: nat, earlier: nat)
    requires minus.kind == MINUS
    ensures BinaryOp(minus, ClockAsWritten(later), ClockAsWritten(earlier))
            == Failure(RuntimeError(minus, "Operands must be a Number."))
  {
  }

  /** With `clock` answering a number of seconds, elapsed time is a plain subtraction. */
  lemma ClockElapsedWorks(minus: Token, later: nat, earlier: nat)
    requires minus.kind == MINUS
    ensures BinaryOp(minus, ClockReading(later), ClockReading(earlier))
            == Success(Num((later as real - earlier as real) / 1000.0))
  {
  }

  // ---------------------------------------------------------------------------
  // A whole run (Interpreter.kt:20-26)

  /** How a run ended. Only a `RuntimeError` is caught and reported; a `Return` signal
      escaping to top level, like any other exception, ends the run uncaught. */
  datatype Ending = Completed | RuntimeFailure(error: RuntimeError) | Uncaught(reason: string) | Exhausted

  datatype Run = Run(out: seq<Rendered>, ending: Ending)

  /** `interpret`: the statements in order in the global frame, stopping at the first
      runtime error. */
  function Interpret(program: seq<Stmt>, cx: Context, fuel: nat): (r: Run)
    ensures r.out == ExecStmts(program, Initial(), cx, fuel).st.out
    ensures r.ending.RuntimeFailure? <==> ExecStmts(program, Initial(), cx, fuel).Abrupt? && ExecStmts(program, Initial(), cx, fuel).signal.Thrown?
    ensures r.ending.Completed? <==> ExecStmts(program, Initial(), cx, fuel).Normal?
  {
    match ExecStmts(program, Initial(), cx, fuel)
    case Normal(_, s) => Run(s.out, Completed)
    case Abrupt(Thrown(err), s) => Run(s.out, RuntimeFailure(err))
    case Abrupt(Returned(_), s) => Run(s.out, Uncaught("return outside a function"))
    case Abrupt(Crashed(why), s) => Run(s.out, Uncaught(why))
    case Abrupt(OutOfFuel, s) => Run(s.out, Exhausted)
  }
}
