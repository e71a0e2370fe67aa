/** Runtime values (src/com/sabino/lox/types/LoxClass.kt, LoxInstance.kt, LoxFunction.kt and
    the value cases of src/com/sabino/lox/Interpreter.kt). The source passes values around
    as `Optional<Any>` with `Optional.empty()` for nil; here they form one closed union. */
module Values {
  import opened Wrappers
  import opened Tokens
  import opened Ast

  /** A user function (LoxFunction.kt:7-10): its declaration and the id of the frame it
      closes over. The evaluator builds methods with a third argument telling whether
      the method is an initializer (Interpreter.kt:223); the flag is kept but, as in
      the call shown in LoxFunction.kt:16-33, nothing reads it. */
  datatype LoxFunction = LoxFunction(decl: FunDecl, closure: nat, isInit: bool)

  /** A class (LoxClass.kt:6-10). `id` stands for the object identity the source
      compares classes by; each executed class declaration gets a fresh one. */
  datatype LoxClass = LoxClass(id: nat, name: string, superclass: Option<LoxClass>, methods: map<string, LoxFunction>)

  /** Every value a Lox expression can produce. `Seconds` is what the native `clock`
      returns as written: a whole number of seconds held in a `Long`
      (primitives/Clock.kt:10-12), which is not a Lox number. An instance is a reference into the instance heap
      together with its class, which never changes after creation. */
  datatype Value =
    | Nil
    | Bool(b: bool)
    | Num(n: real)
    | Str(s: string)
    | FunctionValue(fn: LoxFunction)
    | ClassValue(klass: LoxClass)
    | Clock
    | Seconds(secs: nat)
    | Instance(ref: nat, klass: LoxClass)

  /** `Interpreter.RuntimeError` (Interpreter.kt:10): the token blamed and a message. */
  datatype RuntimeError = RuntimeError(token: Token, message: string)

  datatype Result<+T> = Success(value: T) | Failure(error: RuntimeError)

  /** What `print` emits. Numbers stay numbers: the source's text for them comes from
      Java's `Double.toString`, which this model does not reproduce. */
  datatype Rendered = Text(text: string) | Number(n: real)

  predicate IsCallable(v: Value) {
    v.FunctionValue? || v.ClassValue? || v.Clock?
  }

  // ---------------------------------------------------------------------------
  // Method resolution (LoxClass.kt:12-44)

  /** The class followed by its superclass chain, nearest first: the independent
      reference `FindMethod` is checked against. */
  function Lineage(c: LoxClass): (r: seq<LoxClass>)
    ensures |r| >= 1 && r[0] == c
    decreases c
  {
    match c.superclass
    case None => [c]
    case Some(s) => [c] + Lineage(s)
  }

  /** `findMethod` (LoxClass.kt:33-44): the class's own method first, then the
      superclass's answer, then nothing. */
  function FindMethod(c: LoxClass, name: string): (r: Option<LoxFunction>)
    ensures name in c.methods ==> r == Some(c.methods[name])
    decreases c
  {
    if name in c.methods then Some(c.methods[name])
    else
      match c.superclass
      case Some(s) => FindMethod(s, name)
      case None => None
  }

  /** Past the first class, the lineage is the superclass's lineage. */
  lemma LineageTail(c: LoxClass, s: LoxClass, i: nat)
    requires c.superclass == Some(s) && i < |Lineage(s)|
    ensures i + 1 < |Lineage(c)| && Lineage(c)[i + 1] == Lineage(s)[i]
  {
  }

  /** `findMethod` answers nothing exactly when no class of the lineage defines `name`. */
  lemma {:induction false} FindMethodNone(c: LoxClass, name: string)
    ensures FindMethod(c, name).None? <==> forall i :: 0 <= i < |Lineage(c)| ==> name !in Lineage(c)[i].methods
    decreases c
  {
    match c.superclass
    case None =>
      assert Lineage(c) == [c];
    case Some(s) =>
      FindMethodNone(s, name);
      if FindMethod(c, name).None? {
        forall i | 0 <= i < |Lineage(c)| ensures name !in Lineage(c)[i].methods {
          if i > 0 { LineageTail(c, s, i - 1); }
        }
      } else if name in c.methods {
        assert name in Lineage(c)[0].methods;
      } else {
        assert FindMethod(s, name).Some?;
        var i :| 0 <= i < |Lineage(s)| && name in Lineage(s)[i].methods;
        LineageTail(c, s, i);
        assert name in Lineage(c)[i + 1].methods;
      }
  }

  /** The nearest class of the lineage that defines `name` supplies the method. */
  lemma {:induction false} FindMethodNearest(c: LoxClass, name: string, i: nat)
    requires i < |Lineage(c)| && name in Lineage(c)[i].methods
    requires forall j :: 0 <= j < i ==> name !in Lineage(c)[j].methods
    ensures FindMethod(c, name) == Some(Lineage(c)[i].methods[name])
    decreases c
  {
    if i > 0 {
      var s := c.superclass.value;
      LineageTail(c, s, i - 1);
      forall j | 0 <= j < i - 1 ensures name !in Lineage(s)[j].methods {
        LineageTail(c, s, j);
      }
      FindMethodNearest(s, name, i - 1);
    }
  }

  /** `LoxClass.arity` (LoxClass.kt:12-19): the parameter count of the initializer of the
      nearest class in the lineage that defines `init`, or 0 when none does. */
  function ClassArity(c: LoxClass): (n: nat)
    ensures FindMethod(c, "init").Some? ==> n == |FindMethod(c, "init").value.decl.params|
    ensures (forall i :: 0 <= i < |Lineage(c)| ==> "init" !in Lineage(c)[i].methods) ==> n == 0
    ensures forall i :: 0 <= i < |Lineage(c)| && "init" in Lineage(c)[i].methods
                        && (forall j :: 0 <= j < i ==> "init" !in Lineage(c)[j].methods)
                        ==> n == |Lineage(c)[i].methods["init"].decl.params|
  {
    FindMethodNone(c, "init");
    forall i | 0 <= i < |Lineage(c)| && "init" in Lineage(c)[i].methods
               && (forall j :: 0 <= j < i ==> "init" !in Lineage(c)[j].methods)
      ensures FindMethod(c, "init") == Some(Lineage(c)[i].methods["init"])
    {
      FindMethodNearest(c, "init", i);
    }
    match FindMethod(c, "init")
    case Some(init) => |init.decl.params|
    case None => 0
  }

  /** `arity()` of any callable (LoxCallable.kt:6-9): a function's parameter count
      (LoxFunction.kt:12-14), a class's initializer arity, 0 for `clock`
      (primitives/Clock.kt:8); nothing for a value that is not callable. */
  function Arity(v: Value): (r: Option<nat>)
    ensures r.Some? <==> IsCallable(v)
    ensures v.FunctionValue? ==> r == Some(|v.fn.decl.params|)
    ensures v.Clock? ==> r == Some(0)
  {
    match v
    case FunctionValue(f) => Some(|f.decl.params|)
    case ClassValue(c) => Some(ClassArity(c))
    case Clock => Some(0)
    case _ => None
  }

  // ---------------------------------------------------------------------------
  // Instances (LoxInstance.kt)

  type Fields = map<string, Value>

  function UndefinedProperty(name: Token): RuntimeError {
    RuntimeError(name, "Undefined property '" + name.lexeme + "'.")
  }

  /** `LoxInstance.get` (LoxInstance.kt:10-20): a field wins over a method of the same
      name; otherwise the method found through the class chain is returned as it is,
      not bound to the instance; otherwise the lookup fails. */
  function InstanceGet(klass: LoxClass, fields: Fields, name: Token): (r: Result<Value>)
    ensures name.lexeme in fields ==> r == Success(fields[name.lexeme])
    ensures name.lexeme !in fields && FindMethod(klass, name.lexeme).Some? ==>
              r == Success(FunctionValue(FindMethod(klass, name.lexeme).value))
    ensures r.Failure? <==> name.lexeme !in fields && forall i :: 0 <= i < |Lineage(klass)| ==> name.lexeme !in Lineage(klass)[i].methods
    ensures r.Failure? ==> r.error == UndefinedProperty(name)
  {
    FindMethodNone(klass, name.lexeme);
    if name.lexeme in fields then Success(fields[name.lexeme])
    else
      match FindMethod(klass, name.lexeme)
      case Some(m) => Success(FunctionValue(m))
      case None => Failure(UndefinedProperty(name))
  }

  /** `LoxInstance.set` (LoxInstance.kt:22-24): creates or overwrites one field. */
  function InstanceSet(fields: Fields, name: Token, v: Value): (r: Fields)
    ensures r.Keys == fields.Keys + {name.lexeme}
    ensures r[name.lexeme] == v
    ensures forall n :: n in fields && n != name.lexeme ==> r[n] == fields[n]
  {
    fields[name.lexeme := v]
  }

  /** Reading a property right after setting it yields the value set, and reading any
      other property is unaffected by the write. */
  lemma SetThenGet(klass: LoxClass, fields: Fields, name: Token, v: Value, other: Token)
    ensures InstanceGet(klass, InstanceSet(fields, name, v), name) == Success(v)
    ensures other.lexeme != name.lexeme ==>
              InstanceGet(klass, InstanceSet(fields, name, v), other) == InstanceGet(klass, fields, other)
  {
  }

  // ---------------------------------------------------------------------------
  // The native `clock` (primitives/Clock.kt)

  /** `clock()` as written (primitives/Clock.kt:10-12): whole seconds, truncated, held
      in a `Long`. */
  function ClockAsWritten(millis: nat): (v: Value)
    ensures v.Seconds? && v.secs * 1000 <= millis < (v.secs + 1) * 1000
  {
    Seconds(millis / 1000)
  }

  /** `clock()` as the evaluator uses it: the same reading as a Lox number of seconds,
      which arithmetic accepts. */
  function ClockReading(millis: nat): (v: Value)
    ensures v.Num? && v.n * 1000.0 == millis as real
  {
    Num(millis as real / 1000.0)
  }

  // ---------------------------------------------------------------------------
  // Text of values (`toString` of the runtime classes, `stringify` in Interpreter.kt:307-318)

  function DigitChar(d: nat): char
    requires d < 10
  {
    "0123456789"[d]
  }

  /** Decimal digits of a natural number, as Kotlin's string templates print an `Int`
      or a `Long`. */
  function NatToString(n: nat): (s: string)
    ensures |s| >= 1
    ensures forall i :: 0 <= i < |s| ==> '0' <= s[i] <= '9'
    decreases n
  {
    if n < 10 then [DigitChar(n)] else NatToString(n / 10) + [DigitChar(n % 10)]
  }

  /** The value of a string of decimal digits: the inverse of `NatToString`. */
  function DigitsToNat(s: string): nat
    requires forall i :: 0 <= i < |s| ==> '0' <= s[i] <= '9'
    decreases |s|
  {
    if |s| == 0 then 0 else 10 * DigitsToNat(s[..|s| - 1]) + ((s[|s| - 1] as int) - ('0' as int))
  }

  lemma {:induction false} NatToStringRoundTrip(n: nat)
    ensures DigitsToNat(NatToString(n)) == n
    decreases n
  {
    var s := NatToString(n);
    if n >= 10 {
      NatToStringRoundTrip(n / 10);
      assert s[..|s| - 1] == NatToString(n / 10);
    }
  }

  /** `stringify` of a value: "nil" for nil (Interpreter.kt:308), a class's name
      (LoxClass.kt:46-48), "NAME instance" (LoxInstance.kt:26-28), "<fn NAME>"
      (LoxFunction.kt:35-37), "<native fun>" (primitives/Clock.kt:14), the digits of
      a `Long`, and Kotlin's "true"/"false". */
  function Stringify(v: Value): (r: Rendered)
    ensures r.Number? <==> v.Num?
    ensures v.Nil? ==> r == Text("nil")
    ensures v.Bool? ==> r == Text(if v.b then "true" else "false")
    ensures v.Str? ==> r == Text(v.s)
    ensures v.Clock? ==> r == Text("<native fun>")
    ensures v.ClassValue? ==> r == Text(v.klass.name)
    ensures v.Instance? ==> r == Text(v.klass.name + " instance")
    ensures v.FunctionValue? ==> r == Text("<fn " + v.fn.decl.name.lexeme + ">")
    ensures v.Seconds? ==> r == Text(NatToString(v.secs))
  {
    match v
    case Nil => Text("nil")
    case Bool(b) => Text(if b then "true" else "false")
    case Num(n) => Number(n)
    case Str(s) => Text(s)
    case FunctionValue(f) => Text("<fn " + f.decl.name.lexeme + ">")
    case ClassValue(c) => Text(c.name)
    case Clock => Text("<native fun>")
    case Seconds(n) => Text(NatToString(n))
    case Instance(_, c) => Text(c.name + " instance")
  }
}
