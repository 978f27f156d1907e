/** The code-emission backend, reduced to what the core relies on: configuration
    values, the arguments of emitted calls, the operations appended to the
    instruction stream, and the stream itself together with the build's
    `add_define` and `add_warning` side channels. */
module Emit {

  /** A configuration value as the validated YAML tree holds it. */
  datatype Value =
    | Str(s: string)
    | Int(i: int)
    | Bool(b: bool)
    | Lambda(body: string)            // a templatable value: `!lambda ...`
    | Id(name: string)                // a reference to a declared id
    | List(items: seq<Value>)
    | Dict(entries: map<string, Value>)
    | Null                            // Python None

  /** Python truthiness of a configuration value. */
  predicate Truthy(v: Value) {
    match v
    case Str(s) => s != ""
    case Int(i) => i != 0
    case Bool(b) => b
    case Lambda(_) => true
    case Id(_) => true
    case List(items) => items != []
    case Dict(entries) => entries != map[]
    case Null => false
  }

  /** A validated configuration mapping: keys absent from the YAML and without a
      schema default are absent here too. */
  type Config = map<string, Value>

  /** `config.get(key)` as the walrus conditionals `if v := config.get(key):`
      test it: the key is present and its value is truthy. */
  predicate Given(c: Config, key: string) {
    key in c && Truthy(c[key])
  }

  /** A `cv.Invalid` raised while validating, with the configuration path it
      names (empty when the validator gives none). */
  datatype ValidationError = ValidationError(message: string, path: seq<string>)

  /** An argument of an emitted call. */
  datatype Arg =
    | V(value: Value)                 // a configuration value after its converter
    | Lit(text: string)               // a literal C token: a constant name, NULL, "40"
    | Num(n: int)
    | Var(name: string)               // a declared variable or widget object
    | Expr(fn: string, args: seq<Arg>)  // the call expression lv_<fn>(args) used as a value
    | Member(target: Arg, name: string)  // target.name() on a C++ object
    | LambdaRef(name: string)         // the lambda built by a LambdaContext

  /** One entry of the instruction stream. */
  datatype Op =
    | Call(fn: string, args: seq<Arg>)        // the statement lv_<fn>(args);
    | Declare(name: string, init: Arg)        // a variable declared with an initialiser
    | Assign(name: string, rhs: Arg)          // name = rhs;
    | StaticArray(name: string, elems: seq<Arg>)  // static const T name[] = {...};
    | Raw(text: string)                       // a raw statement
    | SetProperty(target: Arg, prop: string, value: Arg)  // Widget.set_property
    | WidgetCall(target: Arg, helper: string, args: seq<Arg>)  // other Widget helpers
    | SetObjProperties(target: Arg, conf: string)  // set_obj_properties(widget, conf)
    | AddWidgets(target: Arg, conf: string)        // add_widgets(widget, conf)
    | WidgetToCode(kind: string, conf: string, parent: Arg)  // widget_to_code
    | BeginLocal(name: string, init: Arg)     // entering `with LocalVariable(...)`
    | EndLocal(name: string)                  // leaving it
    | DefineLambda(name: string, body: seq<Op>)  // a LambdaContext and its body

  /** The statements for each element of `xs` in turn. */
  function ConcatMap<T>(f: T -> seq<Op>, xs: seq<T>): seq<Op>
    decreases |xs|
  {
    if |xs| == 0 then [] else ConcatMap(f, xs[..|xs| - 1]) + f(xs[|xs| - 1])
  }

  /** Regrouping appended statements. */
  lemma AppendAssoc(a: seq<Op>, b: seq<Op>, c: seq<Op>)
    ensures (a + b) + c == a + (b + c)
  {
  }

  /** The statements for a list are those of its first part, then those of
      the rest. */
  lemma {:induction false} ConcatMapAppend<T>(f: T -> seq<Op>, a: seq<T>, b: seq<T>)
    ensures ConcatMap(f, a + b) == ConcatMap(f, a) + ConcatMap(f, b)
    decreases |b|
  {
    if |b| == 0 {
      assert a + b == a;
    } else {
      var init := b[..|b| - 1];
      assert (a + b)[..|a + b| - 1] == a + init;
      assert (a + b)[|a + b| - 1] == b[|b| - 1];
      ConcatMapAppend(f, a, init);
    }
  }

  /** The number of `lv_<fn>(...)` statements in `ops`. */
  function CountCalls(ops: seq<Op>, fn: string): nat
    decreases |ops|
  {
    if |ops| == 0 then 0
    else CountCalls(ops[..|ops| - 1], fn) + (if ops[|ops| - 1].Call? && ops[|ops| - 1].fn == fn then 1 else 0)
  }

  /** Counting distributes over concatenation. */
  lemma {:induction false} CountCallsAppend(a: seq<Op>, b: seq<Op>, fn: string)
    ensures CountCalls(a + b, fn) == CountCalls(a, fn) + CountCalls(b, fn)
    decreases |b|
  {
    if |b| == 0 {
      assert a + b == a;
    } else {
      assert (a + b)[..|a + b| - 1] == a + b[..|b| - 1];
      assert (a + b)[|a + b| - 1] == b[|b| - 1];
      CountCallsAppend(a, b[..|b| - 1], fn);
    }
  }

  /** A single statement counts once when it calls `fn`. */
  lemma CountCallsSingle(op: Op, fn: string)
    ensures CountCalls([op], fn) == (if op.Call? && op.fn == fn then 1 else 0)
  {
    assert [op][..0] == [];
  }

  /** Whether a statement list of at most one statement calls `fn`. */
  function Hit(s: seq<Op>, fn: string): nat {
    if |s| == 1 && s[0].Call? && s[0].fn == fn then 1 else 0
  }

  /** At most one statement: it is counted when it calls `fn`. */
  lemma CountCallsHit(s: seq<Op>, fn: string)
    requires |s| <= 1
    ensures CountCalls(s, fn) == Hit(s, fn)
  {
    if |s| == 1 {
      assert s[..0] == [];
    }
  }

  /** Four optional statements in a row count their calls one by one. */
  lemma CountCallsOptionals(a: seq<Op>, b: seq<Op>, c: seq<Op>, d: seq<Op>, fn: string)
    requires |a| <= 1 && |b| <= 1 && |c| <= 1 && |d| <= 1
    ensures CountCalls(a + b + (c + d), fn) == Hit(a, fn) + Hit(b, fn) + Hit(c, fn) + Hit(d, fn)
  {
    var ab, cd := a + b, c + d;
    assert CountCalls(ab, fn) == Hit(a, fn) + Hit(b, fn) by {
      CountCallsAppend(a, b, fn);
      CountCallsHit(a, fn);
      CountCallsHit(b, fn);
    }
    assert CountCalls(cd, fn) == Hit(c, fn) + Hit(d, fn) by {
      CountCallsAppend(c, d, fn);
      CountCallsHit(c, fn);
      CountCallsHit(d, fn);
    }
    CountCallsAppend(ab, cd, fn);
  }

  /** A statement is counted exactly when it is present. */
  lemma {:induction false} CountCallsPositive(ops: seq<Op>, fn: string)
    ensures CountCalls(ops, fn) > 0 <==> exists k :: 0 <= k < |ops| && ops[k].Call? && ops[k].fn == fn
    decreases |ops|
  {
    if |ops| > 0 {
      var init := ops[..|ops| - 1];
      CountCallsPositive(init, fn);
      if CountCalls(init, fn) > 0 {
        var k :| 0 <= k < |init| && init[k].Call? && init[k].fn == fn;
        assert ops[k] == init[k];
      }
      if exists k :: 0 <= k < |ops| && ops[k].Call? && ops[k].fn == fn {
        var k :| 0 <= k < |ops| && ops[k].Call? && ops[k].fn == fn;
        if k < |ops| - 1 {
          assert init[k] == ops[k];
        }
      }
    }
  }

  /** The instruction stream of one build, with the defines and warnings the
      build collects beside it. */
  class Code {
    var ops: seq<Op>
    var defines: seq<(string, int)>
    var warnings: seq<string>

    constructor ()
      ensures ops == [] && defines == [] && warnings == []
    {
      ops, defines, warnings := [], [], [];
    }

    method Add(op: Op)
      modifies this
      ensures ops == old(ops) + [op]
      ensures defines == old(defines) && warnings == old(warnings)
    {
      ops := ops + [op];
    }

    /** `lv.<fn>(args)`. */
    method Call(fn: string, args: seq<Arg>)
      modifies this
      ensures ops == old(ops) + [Op.Call(fn, args)]
      ensures defines == old(defines) && warnings == old(warnings)
    {
      ops := ops + [Op.Call(fn, args)];
    }

    method AddDefine(name: string, value: int)
      modifies this
      ensures defines == old(defines) + [(name, value)]
      ensures ops == old(ops) && warnings == old(warnings)
    {
      defines := defines + [(name, value)];
    }

    method AddWarning(message: string)
      modifies this
      ensures warnings == old(warnings) + [message]
      ensures ops == old(ops) && defines == old(defines)
    {
      warnings := warnings + [message];
    }
  }
}
