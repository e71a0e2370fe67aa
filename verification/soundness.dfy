/** Evaluation keeps the evaluator's state sound (see `Interpreter.Sound`): every frame
    links to an existing, older enclosing frame, and every value held anywhere, or
    returned, reaches only existing frames. So the environment walks never meet a cut
    link, and the chains they follow are the ones the source's object graph has
    (src/com/sabino/lox/Interpreter.kt, src/com/sabino/lox/Environment.kt).

    One lemma per evaluator function, mutually recursive in the same order the functions
    call each other. */
module Soundness {
  import opened Wrappers
  import opened Tokens
  import opened Ast
  import opened Values
  import opened Interpreter
  import Env = Environment

  /** A value found by `get` is held in a frame, so it reaches only existing frames. */
  lemma GetIn(st: State, e: nat, name: string)
    requires Sound(st)
    ensures Env.Get(st.frames, e, name).Some? ==> ValueIn(Env.Get(st.frames, e, name).value, st.frames.Keys)
  {
    if Env.Get(st.frames, e, name).Some? {
      var h := Env.Holder(st.frames, e, name).value;
      assert BindingsIn(st.frames[h].values, st.frames.Keys);
    }
  }

  lemma ValuesInGrows(vs: seq<Value>, a: set<nat>, b: set<nat>)
    requires a <= b && ValuesIn(vs, a)
    ensures ValuesIn(vs, b)
  {
    forall i | 0 <= i < |vs| ensures ValueIn(vs[i], b) {
      ValueInGrows(vs[i], a, b);
    }
  }

  /** The frame of a call holds only argument values. */
  lemma ParamBindingsIn(params: seq<Token>, args: seq<Value>, ids: set<nat>)
    requires |params| == |args| && ValuesIn(args, ids)
    ensures BindingsIn(ParamBindings(params, args), ids)
  {
    var m := ParamBindings(params, args);
    forall n | n in m ensures ValueIn(m[n], ids) {
      var i :| 0 <= i < |args| && args[i] == m[n];
    }
  }

  /** The state a run starts from is sound. */
  lemma InitialSound()
    ensures Sound(Initial())
  {
    var st := Initial();
    assert BindingsIn(st.frames[GLOBALS].values, st.frames.Keys);
  }

  // ---------------------------------------------------------------------------
  // Expressions

  lemma {:induction false} EvalExprSound(e: Expr, st: State, cx: Context, fuel: nat)
    ensures Sound(st) ==> ValueOk(EvalExpr(e, st, cx, fuel))
    decreases fuel, 0, 0
  {
    if Sound(st) && fuel > 0 {
      if e.Assign? || e.Binary? || e.Call? || e.Get? || e.Grouping? || e.Logical? {
        CompoundSound(e, st, cx, fuel - 1);
      } else {
        LeafSound(e, st, cx, fuel - 1);
      }
      assert ValueOk(EvalExpr(e, st, cx, fuel - 1 + 1));
    }
  }

  /** One evaluation step of an expression whose evaluation takes the fuel below it. */
  lemma {:induction false} CompoundSound(e: Expr, st: State, cx: Context, fuel: nat)
    requires e.Assign? || e.Binary? || e.Call? || e.Get? || e.Grouping? || e.Logical?
    ensures Sound(st) ==> ValueOk(EvalExpr(e, st, cx, fuel + 1))
    decreases fuel, 9, 0
  {
    if Sound(st) {
      var r := EvalExpr(e, st, cx, fuel + 1);
      match e
      case Assign(id, name, value) =>
        EvalAssignSound(id, name, value, st, cx, fuel);
        assert r == EvalAssign(id, name, value, st, cx, fuel);
        assert ValueOk(EvalAssign(id, name, value, st, cx, fuel));
      case Binary(left, op, right) =>
        EvalBinarySound(left, op, right, st, cx, fuel);
        assert r == EvalBinary(left, op, right, st, cx, fuel);
        assert ValueOk(EvalBinary(left, op, right, st, cx, fuel));
      case Call(callee, paren, arguments) =>
        EvalCallSound(callee, paren, arguments, st, cx, fuel);
        assert r == EvalCall(callee, paren, arguments, st, cx, fuel);
        assert ValueOk(EvalCall(callee, paren, arguments, st, cx, fuel));
      case Get(obj, name) =>
        EvalGetSound(obj, name, st, cx, fuel);
        assert r == EvalGet(obj, name, st, cx, fuel);
        assert ValueOk(EvalGet(obj, name, st, cx, fuel));
      case Grouping(inner) =>
        EvalExprSound(inner, st, cx, fuel);
        assert r == EvalExpr(inner, st, cx, fuel);
        assert ValueOk(EvalExpr(inner, st, cx, fuel));
      case Logical(left, op, right) =>
        EvalLogicalSound(left, op, right, st, cx, fuel);
        assert r == EvalLogical(left, op, right, st, cx, fuel);
        assert ValueOk(EvalLogical(left, op, right, st, cx, fuel));
    }
  }

  lemma {:induction false} LeafSound(e: Expr, st: State, cx: Context, fuel: nat)
    requires !(e.Assign? || e.Binary? || e.Call? || e.Get? || e.Grouping? || e.Logical?)
    ensures Sound(st) ==> ValueOk(EvalExpr(e, st, cx, fuel + 1))
    decreases fuel, 9, 0
  {
    if Sound(st) {
      var r := EvalExpr(e, st, cx, fuel + 1);
      match e
      case Literal(l) =>
        assert r == Normal(LiteralValueOf(l), st);
      case Set(obj, name, value) =>
        EvalSetSound(obj, name, value, st, cx, fuel);
        assert r == EvalSet(obj, name, value, st, cx, fuel);
        assert ValueOk(EvalSet(obj, name, value, st, cx, fuel));
      case Super(id, keyword, methodName) =>
        EvalSuperSound(id, keyword, methodName, st, cx);
        assert r == EvalSuper(id, keyword, methodName, st, cx);
        assert ValueOk(EvalSuper(id, keyword, methodName, st, cx));
      case This(id, keyword) =>
        LookupSound(keyword, id, st, cx);
        assert r == LookupVariable(keyword, id, st, cx);
        assert ValueOk(LookupVariable(keyword, id, st, cx));
      case Unary(op, right) =>
        EvalUnarySound(op, right, st, cx, fuel);
        assert r == EvalUnary(op, right, st, cx, fuel);
        assert ValueOk(EvalUnary(op, right, st, cx, fuel));
      case Variable(id, name) =>
        LookupSound(name, id, st, cx);
        assert r == LookupVariable(name, id, st, cx);
        assert ValueOk(LookupVariable(name, id, st, cx));
    }
  }



  lemma {:induction false} EvalArgsSound(es: seq<Expr>, st: State, cx: Context, fuel: nat)
    ensures Sound(st) ==> ValuesOk(EvalArgs(es, st, cx, fuel))
    decreases fuel, 0, |es|
  {
    var r := EvalArgs(es, st, cx, fuel);
    if Sound(st) && |es| > 0 {
      EvalExprSound(es[0], st, cx, fuel);
      var v := EvalExpr(es[0], st, cx, fuel);
      if v.Abrupt? {
        assert r == Abrupt(v.signal, v.st);
      } else {
        EvalArgsSound(es[1..], v.st, cx, fuel);
        var rest := EvalArgs(es[1..], v.st, cx, fuel);
        if rest.Abrupt? {
          assert r == Abrupt(rest.signal, rest.st);
        } else {
          assert r == Normal([v.value] + rest.value, rest.st);
          ValueInGrows(v.value, v.st.frames.Keys, rest.st.frames.Keys);
        }
      }
    }
  }

  lemma LookupSound(name: Token, id: nat, st: State, cx: Context)
    ensures Sound(st) ==> ValueOk(LookupVariable(name, id, st, cx))
  {
    if Sound(st) {
      if id in cx.locals {
        var a := Env.Ancestor(st.frames, st.env, cx.locals[id]);
        if a.Some? {
          GetIn(st, a.value, name.lexeme);
        }
      } else {
        GetIn(st, GLOBALS, name.lexeme);
      }
    }
  }

  lemma {:induction false} EvalAssignSound(id: nat, name: Token, value: Expr, st: State, cx: Context, fuel: nat)
    ensures Sound(st) ==> ValueOk(EvalAssign(id, name, value, st, cx, fuel))
    decreases fuel, 1, 0
  {
    var r := EvalAssign(id, name, value, st, cx, fuel);
    EvalExprSound(value, st, cx, fuel);
    var v := EvalExpr(value, st, cx, fuel);
    if v.Abrupt? {
      assert r == Abrupt(v.signal, v.st);
    } else {
      assert r == StoreVariable(name, id, v.value, v.st, cx);
    }
  }

  lemma {:induction false} EvalBinarySound(left: Expr, op: Token, right: Expr, st: State, cx: Context, fuel: nat)
    ensures Sound(st) ==> ValueOk(EvalBinary(left, op, right, st, cx, fuel))
    decreases fuel, 1, 0
  {
    var r := EvalBinary(left, op, right, st, cx, fuel);
    EvalExprSound(left, st, cx, fuel);
    var l := EvalExpr(left, st, cx, fuel);
    if l.Abrupt? {
      assert r == Abrupt(l.signal, l.st);
    } else {
      EvalExprSound(right, l.st, cx, fuel);
      var rv := EvalExpr(right, l.st, cx, fuel);
      if rv.Abrupt? {
        assert r == Abrupt(rv.signal, rv.st);
      } else {
        var b := BinaryOp(op, l.value, rv.value);
        assert r == if b.Success? then Normal(b.value, rv.st) else Abrupt(Thrown(b.error), rv.st);
      }
    }
  }

  lemma {:induction false} EvalCallSound(callee: Expr, paren: Token, arguments: seq<Expr>, st: State, cx: Context, fuel: nat)
    ensures Sound(st) ==> ValueOk(EvalCall(callee, paren, arguments, st, cx, fuel))
    decreases fuel, 8, 0
  {
    var r := EvalCall(callee, paren, arguments, st, cx, fuel);
    EvalExprSound(callee, st, cx, fuel);
    var f := EvalExpr(callee, st, cx, fuel);
    if f.Abrupt? {
      assert r == Abrupt(f.signal, f.st);
    } else if Sound(st) {
      EvalArgsSound(arguments, f.st, cx, fuel);
      var args := EvalArgs(arguments, f.st, cx, fuel);
      if args.Abrupt? {
        assert r == Abrupt(args.signal, args.st);
      } else {
        assert r == Invoke(f.value, args.value, paren, args.st, cx, fuel);
        ValueInGrows(f.value, f.st.frames.Keys, args.st.frames.Keys);
        InvokeSound(f.value, args.value, paren, args.st, cx, fuel);
      }
    }
  }

  lemma {:induction false} InvokeSound(callee: Value, args: seq<Value>, paren: Token, st: State, cx: Context, fuel: nat)
    ensures Sound(st) && ValueIn(callee, st.frames.Keys) && ValuesIn(args, st.frames.Keys) ==>
              ValueOk(Invoke(callee, args, paren, st, cx, fuel))
    decreases fuel, 7, 0
  {
    var r := Invoke(callee, args, paren, st, cx, fuel);
    match CheckCall(callee, |args|, paren)
    case Some(err) =>
      assert r == Abrupt(Thrown(err), st);
    case None =>
      assert r == CallValue(callee, args, st, cx, fuel);
      CallValueSound(callee, args, st, cx, fuel);
  }

  lemma {:induction false} CallValueSound(callee: Value, args: seq<Value>, st: State, cx: Context, fuel: nat)
    requires Arity(callee) == Some(|args|)
    ensures Sound(st) && ValueIn(callee, st.frames.Keys) && ValuesIn(args, st.frames.Keys) ==>
              ValueOk(CallValue(callee, args, st, cx, fuel))
    decreases fuel, 6, 0
  {
    var r := CallValue(callee, args, st, cx, fuel);
    if callee.FunctionValue? {
      assert r == CallFunction(callee.fn, args, st, cx, fuel);
      CallFunctionSound(callee.fn, args, st, cx, fuel);
    } else if callee.ClassValue? {
      assert r == CallClass(callee.klass, args, st, cx, fuel);
      CallClassSound(callee.klass, args, st, cx, fuel);
    } else {
      assert r.st == st && r.Normal? && Primitive(r.value);
    }
  }

  lemma {:induction false} CallClassSound(k: LoxClass, args: seq<Value>, st: State, cx: Context, fuel: nat)
    requires |args| == ClassArity(k)
    ensures Sound(st) && ClassIn(k, st.frames.Keys) && ValuesIn(args, st.frames.Keys) ==>
              ValueOk(CallClass(k, args, st, cx, fuel))
    decreases fuel, 5, 0
  {
    var r := CallClass(k, args, st, cx, fuel);
    if Sound(st) && ClassIn(k, st.frames.Keys) && ValuesIn(args, st.frames.Keys) {
      var st1 := Allocate(st);
      FindMethodIn(k, "init", st.frames.Keys);
      match FindMethod(k, "init")
      case None =>
        assert r == Normal(Instance(st.next, k), st1);
      case Some(init) =>
        assert r == RunInit(init, Instance(st.next, k), args, st1, cx, fuel);
        RunInitSound(init, Instance(st.next, k), args, st1, cx, fuel);
    }
  }

  lemma {:induction false} RunInitSound(init: LoxFunction, inst: Value, args: seq<Value>, st: State, cx: Context, fuel: nat)
    requires |args| == |init.decl.params|
    ensures Sound(st) && init.closure in st.frames && ValueIn(inst, st.frames.Keys) && ValuesIn(args, st.frames.Keys) ==>
              ValueOk(RunInit(init, inst, args, st, cx, fuel))
    decreases fuel, 3, 0
  {
    var r := RunInit(init, inst, args, st, cx, fuel);
    if Sound(st) && init.closure in st.frames && ValueIn(inst, st.frames.Keys) && ValuesIn(args, st.frames.Keys) {
      var bound := Bind(init, inst, st);
      ValuesInGrows(args, st.frames.Keys, bound.1.frames.Keys);
      CallFunctionSound(bound.0, args, bound.1, cx, fuel);
      var call := CallFunction(bound.0, args, bound.1, cx, fuel);
      if call.Abrupt? {
        assert r == Abrupt(call.signal, call.st);
      } else {
        assert r == Normal(inst, call.st);
        ValueInGrows(inst, st.frames.Keys, call.st.frames.Keys);
      }
    }
  }

  lemma {:induction false} CallFunctionSound(f: LoxFunction, args: seq<Value>, st: State, cx: Context, fuel: nat)
    requires |args| == |f.decl.params|
    ensures Sound(st) && f.closure in st.frames && ValuesIn(args, st.frames.Keys) ==>
              ValueOk(CallFunction(f, args, st, cx, fuel))
    decreases fuel, 2, 0
  {
    var r := CallFunction(f, args, st, cx, fuel);
    if Sound(st) && f.closure in st.frames && ValuesIn(args, st.frames.Keys) {
      ParamBindingsIn(f.decl.params, args, st.frames.Keys);
      var st1 := PushFrame(st, f.closure, ParamBindings(f.decl.params, args));
      ExecBlockSound(f.decl.body, st.next, st1, cx, fuel);
      var body := ExecBlock(f.decl.body, st.next, st1, cx, fuel);
      if body.Normal? {
        assert r == Normal(Nil, body.st);
      } else if body.signal.Returned? {
        assert r == Normal(body.signal.value, body.st);
      } else {
        assert r == Abrupt(body.signal, body.st);
      }
    }
  }

  lemma {:induction false} EvalGetSound(obj: Expr, name: Token, st: State, cx: Context, fuel: nat)
    ensures Sound(st) ==> ValueOk(EvalGet(obj, name, st, cx, fuel))
    decreases fuel, 1, 0
  {
    var r := EvalGet(obj, name, st, cx, fuel);
    EvalExprSound(obj, st, cx, fuel);
    var o := EvalExpr(obj, st, cx, fuel);
    if o.Abrupt? {
      assert r == Abrupt(o.signal, o.st);
    } else if !o.value.Instance? {
      assert r == Abrupt(Thrown(NotAnInstance(name)), o.st);
    } else if Sound(st) {
      var got := InstanceGet(o.value.klass, FieldsOf(o.st, o.value.ref), name);
      assert r == if got.Success? then Normal(got.value, o.st) else Abrupt(Thrown(got.error), o.st);
      FindMethodIn(o.value.klass, name.lexeme, o.st.frames.Keys);
      if o.value.ref in o.st.heap {
        assert BindingsIn(o.st.heap[o.value.ref], o.st.frames.Keys);
      }
    }
  }

  lemma {:induction false} EvalLogicalSound(left: Expr, op: Token, right: Expr, st: State, cx: Context, fuel: nat)
    ensures Sound(st) ==> ValueOk(EvalLogical(left, op, right, st, cx, fuel))
    decreases fuel, 1, 0
  {
    var r := EvalLogical(left, op, right, st, cx, fuel);
    EvalExprSound(left, st, cx, fuel);
    var l := EvalExpr(left, st, cx, fuel);
    if l.Abrupt? {
      assert r == Abrupt(l.signal, l.st);
    } else if (op.kind == OR) == IsTruthy(l.value) {
      assert r == l;
    } else {
      assert r == EvalExpr(right, l.st, cx, fuel);
      EvalExprSound(right, l.st, cx, fuel);
    }
  }

  lemma {:induction false} EvalSetSound(obj: Expr, name: Token, value: Expr, st: State, cx: Context, fuel: nat)
    ensures Sound(st) ==> ValueOk(EvalSet(obj, name, value, st, cx, fuel))
    decreases fuel, 1, 0
  {
    var r := EvalSet(obj, name, value, st, cx, fuel);
    EvalExprSound(obj, st, cx, fuel);
    var o := EvalExpr(obj, st, cx, fuel);
    if o.Abrupt? {
      assert r == Abrupt(o.signal, o.st);
    } else if !o.value.Instance? {
      assert r == Abrupt(Thrown(NotAnInstance(name)), o.st);
    } else {
      EvalExprSound(value, o.st, cx, fuel);
      var v := EvalExpr(value, o.st, cx, fuel);
      if v.Abrupt? {
        assert r == Abrupt(v.signal, v.st);
      } else {
        assert r == Normal(v.value, SetField(v.st, o.value.ref, name, v.value));
      }
    }
  }

  lemma {:induction false} EvalUnarySound(op: Token, right: Expr, st: State, cx: Context, fuel: nat)
    ensures Sound(st) ==> ValueOk(EvalUnary(op, right, st, cx, fuel))
    decreases fuel, 1, 0
  {
    var r := EvalUnary(op, right, st, cx, fuel);
    EvalExprSound(right, st, cx, fuel);
    var v := EvalExpr(right, st, cx, fuel);
    if v.Abrupt? {
      assert r == Abrupt(v.signal, v.st);
    } else {
      assert r == Normal(UnaryOp(op, v.value), v.st);
    }
  }

  lemma EvalSuperSound(id: nat, keyword: Token, methodName: Token, st: State, cx: Context)
    ensures Sound(st) ==> ValueOk(EvalSuper(id, keyword, methodName, st, cx))
  {
    if Sound(st) {
      var r := EvalSuper(id, keyword, methodName, st, cx);
      if id !in cx.locals {
        assert r == Normal(Nil, st);
      } else {
        var d := cx.locals[id];
        var sc := Env.GetAt(st.frames, st.env, d, "super");
        var inst := Env.GetAt(st.frames, st.env, (d as int) - 1, "this");
        if sc.Bound? && inst.Bound? {
          GetIn(st, Env.Ancestor(st.frames, st.env, d).value, "super");
          GetIn(st, Env.Ancestor(st.frames, st.env, (d as int) - 1).value, "this");
          SuperMethodSound(sc.value, inst.value, keyword, methodName, st);
          assert r == SuperMethod(sc.value, inst.value, keyword, methodName, st);
          assert ValueOk(SuperMethod(sc.value, inst.value, keyword, methodName, st));
        } else {
          assert r.st == st && r.Abrupt? && !r.signal.Returned?;
        }
      }
    }
  }


  lemma SuperMethodSound(sc: Value, inst: Value, keyword: Token, methodName: Token, st: State)
    ensures Sound(st) && ValueIn(sc, st.frames.Keys) && ValueIn(inst, st.frames.Keys) ==>
              ValueOk(SuperMethod(sc, inst, keyword, methodName, st))
  {
    if sc.ClassValue? {
      FindMethodIn(sc.klass, methodName.lexeme, st.frames.Keys);
    }
  }

  // ---------------------------------------------------------------------------
  // Statements

  lemma {:induction false} ExecStmtSound(s: Stmt, st: State, cx: Context, fuel: nat)
    ensures Sound(st) ==> UnitOk(ExecStmt(s, st, cx, fuel))
    decreases fuel, 0, 0
  {
    if Sound(st) && fuel > 0 {
      if s.Block? || s.Class? || s.If? || s.While? {
        ControlSound(s, st, cx, fuel - 1);
      } else {
        SimpleSound(s, st, cx, fuel - 1);
      }
      assert UnitOk(ExecStmt(s, st, cx, fuel - 1 + 1));
    }
  }

  /** One execution step of a statement that holds other statements. */
  lemma {:induction false} ControlSound(s: Stmt, st: State, cx: Context, fuel: nat)
    requires s.Block? || s.Class? || s.If? || s.While?
    ensures Sound(st) ==> UnitOk(ExecStmt(s, st, cx, fuel + 1))
    decreases fuel, 9, 0
  {
    if Sound(st) {
      var r := ExecStmt(s, st, cx, fuel + 1);
      match s
      case Block(statements) =>
        var st1 := PushFrame(st, st.env, map[]);
        assert Sound(st1) && st.next in st1.frames;
        ExecBlockSound(statements, st.next, st1, cx, fuel);
        assert r == ExecBlock(statements, st.next, st1, cx, fuel);
        assert UnitOk(ExecBlock(statements, st.next, st1, cx, fuel));
      case Class(name, superclass, methods) =>
        ExecClassSound(name, superclass, methods, st, cx, fuel);
        assert r == ExecClass(name, superclass, methods, st, cx, fuel);
        assert UnitOk(ExecClass(name, superclass, methods, st, cx, fuel));
      case If(condition, thenBranch, elseBranch) =>
        ExecIfSound(condition, thenBranch, elseBranch, st, cx, fuel);
        assert r == ExecIf(condition, thenBranch, elseBranch, st, cx, fuel);
        assert UnitOk(ExecIf(condition, thenBranch, elseBranch, st, cx, fuel));
      case While(condition, body) =>
        ExecWhileSound(condition, body, st, cx, fuel);
        assert r == ExecWhile(condition, body, st, cx, fuel);
        assert UnitOk(ExecWhile(condition, body, st, cx, fuel));
    }
  }

  lemma {:induction false} SimpleSound(s: Stmt, st: State, cx: Context, fuel: nat)
    requires !(s.Block? || s.Class? || s.If? || s.While?)
    ensures Sound(st) ==> UnitOk(ExecStmt(s, st, cx, fuel + 1))
    decreases fuel, 9, 0
  {
    if Sound(st) {
      var r := ExecStmt(s, st, cx, fuel + 1);
      match s
      case Expression(e) =>
        ExecExpressionSound(e, st, cx, fuel);
        assert r == ExecExpression(e, st, cx, fuel);
        assert UnitOk(ExecExpression(e, st, cx, fuel));
      case Function(decl) =>
        var f := FunctionValue(LoxFunction(decl, st.env, false));
        assert ValueIn(f, st.frames.Keys);
        assert r == Normal((), DefineHere(st, decl.name.lexeme, f));
      case Print(e) =>
        ExecPrintSound(e, st, cx, fuel);
        assert r == ExecPrint(e, st, cx, fuel);
        assert UnitOk(ExecPrint(e, st, cx, fuel));
      case Return(_, value) =>
        ExecReturnSound(value, st, cx, fuel);
        assert r == ExecReturn(value, st, cx, fuel);
        assert UnitOk(ExecReturn(value, st, cx, fuel));
      case Var(name, initializer) =>
        ExecVarSound(name, initializer, st, cx, fuel);
        assert r == ExecVar(name, initializer, st, cx, fuel);
        assert UnitOk(ExecVar(name, initializer, st, cx, fuel));
    }
  }


  lemma {:induction false} ExecStmtsSound(ss: seq<Stmt>, st: State, cx: Context, fuel: nat)
    ensures Sound(st) ==> UnitOk(ExecStmts(ss, st, cx, fuel))
    decreases fuel, 0, |ss|
  {
    var r := ExecStmts(ss, st, cx, fuel);
    if |ss| > 0 {
      ExecStmtSound(ss[0], st, cx, fuel);
      var first := ExecStmt(ss[0], st, cx, fuel);
      if first.Abrupt? {
        assert r == Abrupt(first.signal, first.st);
      } else {
        assert r == ExecStmts(ss[1..], first.st, cx, fuel);
        ExecStmtsSound(ss[1..], first.st, cx, fuel);
      }
    }
  }

  lemma {:induction false} ExecBlockSound(ss: seq<Stmt>, frame: nat, st: State, cx: Context, fuel: nat)
    requires frame in st.frames
    ensures Sound(st) ==> UnitOk(ExecBlock(ss, frame, st, cx, fuel))
    decreases fuel, 1, 0
  {
    var inner := ExecStmts(ss, st.(env := frame), cx, fuel);
    assert ExecBlock(ss, frame, st, cx, fuel) == inner.(st := inner.st.(env := st.env));
    ExecStmtsSound(ss, st.(env := frame), cx, fuel);
  }

  lemma {:induction false} ExecClassSound(name: Token, superclass: Option<VariableExpr>, methods: seq<FunDecl>,
                                          st: State, cx: Context, fuel: nat)
    ensures Sound(st) ==> UnitOk(ExecClass(name, superclass, methods, st, cx, fuel))
    decreases fuel, 1, 0
  {
    var r := ExecClass(name, superclass, methods, st, cx, fuel);
    match superclass
    case None =>
      assert r == DeclareClass(name, None, methods, st);
    case Some(sc) =>
      EvalExprSound(sc, st, cx, fuel);
      var v := EvalExpr(sc, st, cx, fuel);
      if v.Abrupt? {
        assert r == Abrupt(v.signal, v.st);
      } else if v.value.ClassValue? {
        assert r == DeclareClass(name, Some(v.value.klass), methods, v.st);
      } else {
        assert r == Abrupt(Thrown(RuntimeError(sc.name, "Superclass must be a class.")), v.st);
      }
  }

  lemma {:induction false} ExecExpressionSound(e: Expr, st: State, cx: Context, fuel: nat)
    ensures Sound(st) ==> UnitOk(ExecExpression(e, st, cx, fuel))
    decreases fuel, 1, 0
  {
    var r := ExecExpression(e, st, cx, fuel);
    EvalExprSound(e, st, cx, fuel);
    var v := EvalExpr(e, st, cx, fuel);
    if v.Abrupt? {
      assert r == Abrupt(v.signal, v.st);
    } else {
      assert r == Normal((), v.st);
    }
  }

  lemma {:induction false} ExecIfSound(condition: Expr, thenBranch: Stmt, elseBranch: Option<Stmt>,
                                       st: State, cx: Context, fuel: nat)
    ensures Sound(st) ==> UnitOk(ExecIf(condition, thenBranch, elseBranch, st, cx, fuel))
    decreases fuel, 1, 0
  {
    var r := ExecIf(condition, thenBranch, elseBranch, st, cx, fuel);
    EvalExprSound(condition, st, cx, fuel);
    var c := EvalExpr(condition, st, cx, fuel);
    if c.Abrupt? {
      assert r == Abrupt(c.signal, c.st);
    } else if IsTruthy(c.value) {
      assert r == ExecStmt(thenBranch, c.st, cx, fuel);
      ExecStmtSound(thenBranch, c.st, cx, fuel);
    } else if elseBranch.Some? {
      assert r == ExecStmt(elseBranch.value, c.st, cx, fuel);
      ExecStmtSound(elseBranch.value, c.st, cx, fuel);
    } else {
      assert r == Normal((), c.st);
    }
  }

  lemma {:induction false} ExecPrintSound(e: Expr, st: State, cx: Context, fuel: nat)
    ensures Sound(st) ==> UnitOk(ExecPrint(e, st, cx, fuel))
    decreases fuel, 1, 0
  {
    var r := ExecPrint(e, st, cx, fuel);
    EvalExprSound(e, st, cx, fuel);
    var v := EvalExpr(e, st, cx, fuel);
    if v.Abrupt? {
      assert r == Abrupt(v.signal, v.st);
    } else {
      assert r == Normal((), v.st.(out := v.st.out + [Stringify(v.value)]));
    }
  }

  lemma {:induction false} ExecReturnSound(value: Option<Expr>, st: State, cx: Context, fuel: nat)
    ensures Sound(st) ==> UnitOk(ExecReturn(value, st, cx, fuel))
    decreases fuel, 1, 0
  {
    var r := ExecReturn(value, st, cx, fuel);
    if value.Some? {
      EvalExprSound(value.value, st, cx, fuel);
      var v := EvalExpr(value.value, st, cx, fuel);
      if v.Abrupt? {
        assert r == Abrupt(v.signal, v.st);
      } else {
        assert r == Abrupt(Returned(v.value), v.st);
      }
    }
  }

  lemma {:induction false} ExecVarSound(name: Token, initializer: Option<Expr>, st: State, cx: Context, fuel: nat)
    ensures Sound(st) ==> UnitOk(ExecVar(name, initializer, st, cx, fuel))
    decreases fuel, 1, 0
  {
    var r := ExecVar(name, initializer, st, cx, fuel);
    if initializer.Some? {
      EvalExprSound(initializer.value, st, cx, fuel);
      var v := EvalExpr(initializer.value, st, cx, fuel);
      if v.Abrupt? {
        assert r == Abrupt(v.signal, v.st);
      } else {
        assert r == Normal((), DefineHere(v.st, name.lexeme, v.value));
      }
    }
  }

  lemma {:induction false} ExecWhileSound(condition: Expr, body: Stmt, st: State, cx: Context, fuel: nat)
    ensures Sound(st) ==> UnitOk(ExecWhile(condition, body, st, cx, fuel))
    decreases fuel, 1, 3
  {
    if Sound(st) {
      var r := ExecWhile(condition, body, st, cx, fuel);
      EvalExprSound(condition, st, cx, fuel);
      var c := EvalExpr(condition, st, cx, fuel);
      if c.Abrupt? {
        assert r == Abrupt(c.signal, c.st);
      } else if !IsTruthy(c.value) {
        assert r == Normal((), c.st);
      } else {
        IterationSound(condition, body, c, st, cx, fuel);
      }
    }
  }

  /** A loop whose condition held: the body runs, then the loop again. */
  lemma {:induction false} IterationSound(condition: Expr, body: Stmt, c: Outcome<Value>, st: State, cx: Context, fuel: nat)
    requires c == EvalExpr(condition, st, cx, fuel) && c.Normal? && IsTruthy(c.value)
    ensures Sound(c.st) ==> UnitOk(ExecWhile(condition, body, st, cx, fuel))
    decreases fuel, 1, 2
  {
    if Sound(c.st) {
      ExecStmtSound(body, c.st, cx, fuel);
      var b := ExecStmt(body, c.st, cx, fuel);
      if b.Abrupt? {
        StoppedRoundSound(condition, body, c, b, st, cx, fuel);
      } else {
        NextRound(condition, body, c, b, st, cx, fuel);
        NextRoundSound(condition, body, cx, fuel, b.st, ExecWhile(condition, body, st, cx, fuel));
      }
    }
  }

  /** A round whose body ended abruptly ends the loop with the body's outcome. */
  lemma StoppedRoundSound(condition: Expr, body: Stmt, c: Outcome<Value>, b: Outcome<()>, st: State, cx: Context, fuel: nat)
    requires c == EvalExpr(condition, st, cx, fuel) && c.Normal? && IsTruthy(c.value)
    requires b == ExecStmt(body, c.st, cx, fuel) && b.Abrupt? && UnitOk(b)
    ensures UnitOk(ExecWhile(condition, body, st, cx, fuel))
  {
    assert ExecWhile(condition, body, st, cx, fuel) == Abrupt(b.signal, b.st);
  }

  /** The loop handed on, with one unit of fuel less, to a sound state keeps it sound. */
  lemma {:induction false} NextRoundSound(condition: Expr, body: Stmt, cx: Context, fuel: nat, next: State, w: Outcome<()>)
    requires fuel > 0 && Sound(next)
    requires w == ExecWhile(condition, body, next, cx, fuel - 1)
    ensures UnitOk(w)
    decreases fuel, 1, 1
  {
    RepeatSound(condition, body, next, cx, fuel - 1, w);
  }

  /** A round whose body finished normally hands the loop on to the next round. */
  lemma NextRound(condition: Expr, body: Stmt, c: Outcome<Value>, b: Outcome<()>, st: State, cx: Context, fuel: nat)
    requires c == EvalExpr(condition, st, cx, fuel) && c.Normal? && IsTruthy(c.value)
    requires b == ExecStmt(body, c.st, cx, fuel) && b.Normal?
    ensures fuel > 0 && ExecWhile(condition, body, st, cx, fuel) == ExecWhile(condition, body, b.st, cx, fuel - 1)
  {
  }

  /** The loop run again from the state its body left. */
  lemma {:induction false} RepeatSound(condition: Expr, body: Stmt, st: State, cx: Context, fuel: nat, w: Outcome<()>)
    requires Sound(st)
    requires w == ExecWhile(condition, body, st, cx, fuel)
    ensures UnitOk(w)
    decreases fuel, 1, 4
  {
    ExecWhileSound(condition, body, st, cx, fuel);
  }

  // ---------------------------------------------------------------------------
  // A whole run

  /** Every state a run passes through ends sound, so in the state a run ends in, every
      frame's `Parent` is its own enclosing frame. */
  lemma RunStaysSound(program: seq<Stmt>, cx: Context, fuel: nat, k: nat)
    ensures UnitOk(ExecStmts(program, Initial(), cx, fuel))
    ensures k in ExecStmts(program, Initial(), cx, fuel).st.frames ==>
              Env.Parent(ExecStmts(program, Initial(), cx, fuel).st.frames, k)
              == ExecStmts(program, Initial(), cx, fuel).st.frames[k].enclosing
  {
    InitialSound();
    ExecStmtsSound(program, Initial(), cx, fuel);
    var end := ExecStmts(program, Initial(), cx, fuel).st;
    if k in end.frames {
      ParentFollowsLink(end, k);
    }
  }
}
