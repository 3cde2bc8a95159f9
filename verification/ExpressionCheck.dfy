/** PartCAD's `%...%` expressions: the check on the syntax tree and the evaluation it
    has to be sound for (src/partcad/expr.py).

    What Python's own arithmetic, comparisons and library calls answer is a
    parameter, `Python`, whose field types say of which kind the answers are. */
module ExpressionCheck {
  import opened Wrappers

  // ---- values ----

  datatype Number = Bool(b: bool) | Int(i: int) | Float(r: real) | Complex(re: real, im: real)

  datatype Value =
    | Num(n: Number)
    | Text(s: string)
    | Bytes(bytes: string)
    | List(items: seq<Value>)
    | Tuple(items: seq<Value>)
    | Dict(entries: map<string, Value>)
    | NoneValue
    | Ellipsis
    | Slice(lower: Value, upper: Value, step: Value)
    | Method(self: Value, attr: Attr)
    | Function(builtin: Builtin)

  /** The functions of SAFE_NAMES. */
  datatype Builtin =
    | Abs | BoolOf | FloatOf | IntOf | Len | Max | Min | Round | Str
    | Acos | Asin | Atan | Atan2 | Ceil | Cos | Degrees | Floor | Hypot | Log | PowOf
    | Radians | Sin | Sqrt | Tan

  /** The constants of SAFE_NAMES, each spelling a name of its own: e, pi, PI, M_PI,
      INCH, INCHES, FOOT, FEET. */
  datatype Constant = E | Pi | PiUpper | MPi | Inch | Inches | Foot | Feet

  /** A name as it is spelled: one of SAFE_NAMES, or any other. */
  datatype Ident = Called(f: Builtin) | Known(c: Constant) | Other(name: string)

  /** An attribute as it is spelled: one of SAFE_ATTRIBUTES, or any other. */
  datatype Attr =
    | Capitalize | Casefold | Center | Count | Endswith | Find | Index | Isalnum | Isalpha | Isascii
    | Isdecimal | Isdigit | Islower | Isnumeric | Isspace | Istitle | Isupper | Join | Ljust | Lower
    | Lstrip | Partition | Removeprefix | Removesuffix | Replace | Rfind | Rindex | Rjust | Rpartition
    | Rsplit | Rstrip | Split | Splitlines | Startswith | Strip | Swapcase | Title | Upper | Zfill
    | AsIntegerRatio | BitLength | Conjugate | Denominator | Imag | IsInteger | Numerator | Real
    | Unsafe(name: string)

  // ---- syntax ----

  datatype BinOp = Add | Sub | Mult | Div | FloorDiv | Mod | Pow | MatMult | LShift | RShift | BitOr | BitXor | BitAnd
  datatype UnaryOp = Not | UAdd | USub | Invert
  datatype BoolOp = And | Or
  datatype CmpOp = Eq | NotEq | Lt | LtE | Gt | GtE | Is | IsNot | In | NotIn
  datatype Literal = NumLit(n: Number) | TextLit(s: string) | BytesLit(s: string) | NoneLit | EllipsisLit

  /** An absent bound of a slice is the literal None, which is what it stands for. */
  datatype Expr =
    | Const(lit: Literal)
    | Name(id: Ident)
    | Unary(uop: UnaryOp, operand: Expr)
    | Binary(op: BinOp, left: Expr, right: Expr)
    | Logical(bop: BoolOp, operands: seq<Expr>)
    | IfExp(test: Expr, body: Expr, orelse: Expr)
    | Compare(first: Expr, ops: seq<CmpOp>, rest: seq<Expr>)
    | Call(func: Expr, args: seq<Expr>, keywords: seq<Expr>)
    | TupleExpr(elts: seq<Expr>)
    | ListExpr(elts: seq<Expr>)
    | Subscript(value: Expr, index: Expr)
    | SliceExpr(lo: Expr, hi: Expr, stride: Expr)
    | Attribute(value: Expr, attr: Attr)
    | Starred(value: Expr)
    | Unlisted(parts: seq<Expr>)

  type Params = map<Ident, Value>

  // ---- what Python answers ----

  datatype Python = Python(
    arith: (BinOp, Number, Number) -> Option<Number>,
    sign: (UnaryOp, Number) -> Option<Number>,
    part: (Attr, Number) -> Option<Number>,
    compare: (CmpOp, Value, Value) -> Option<bool>,
    e: real,
    pi: real,
    numeric: (Builtin, seq<Value>) -> Option<Number>,
    extremum: (Builtin, seq<Value>) -> Option<nat>,
    str: seq<Value> -> Option<string>,
    format: (string, Value) -> Option<string>,
    numericMethod: (Value, Attr, seq<Value>) -> Option<Number>,
    textMethod: (Value, Attr, seq<Value>) -> Option<string>,
    textsMethod: (Value, Attr, seq<Value>) -> Option<seq<string>>,
    ratio: Number -> Option<(int, int)>,
    positions: (nat, Value) -> Option<seq<nat>>,
    position: (nat, Number) -> Option<nat>)

  predicate IsNumber(v: Value) { v.Num? }

  predicate IsSequence(v: Value) { v.Text? || v.Bytes? || v.List? || v.Tuple? }

  /** isinstance(value, (int, float)); a bool is an int, a complex number is neither. */
  predicate IntOrFloat(v: Value) { v.Num? && !v.n.Complex? }

  predicate IsRepeatCount(v: Value) { v.Num? && (v.n.Int? || v.n.Bool?) }

  /** What the evaluator is given for parameters: plain values. */
  predicate NotCallable(env: Params) {
    forall id | id in env :: !env[id].Method? && !env[id].Function?
  }

  predicate Truth(v: Value) {
    match v
    case Num(Bool(b)) => b
    case Num(Int(i)) => i != 0
    case Num(Float(r)) => r != 0.0
    case Num(Complex(a, b)) => a != 0.0 || b != 0.0
    case Text(s) => s != ""
    case Bytes(s) => s != ""
    case List(items) => items != []
    case Tuple(items) => items != []
    case Dict(entries) => entries != map[]
    case NoneValue => false
    case _ => true
  }

  // ---- operators ----

  /** Whether this operation repeats a sequence. */
  predicate Repeats(op: BinOp, a: Value, b: Value) {
    op.Mult? && ((IsSequence(a) && IsRepeatCount(b)) || (IsRepeatCount(a) && IsSequence(b)))
  }

  function CountOf(n: Number): int
    requires n.Int? || n.Bool?
  {
    if n.Int? then n.i else if n.b then 1 else 0
  }

  function RepeatSeq<T>(s: seq<T>, k: int): seq<T>
    decreases if k > 0 then k else 0
  {
    if k <= 0 then [] else RepeatSeq(s, k - 1) + s
  }

  function Repeat(v: Value, k: int): Value
    requires IsSequence(v)
  {
    match v
    case Text(s) => Text(RepeatSeq(s, k))
    case Bytes(s) => Bytes(RepeatSeq(s, k))
    case List(items) => List(RepeatSeq(items, k))
    case Tuple(items) => Tuple(RepeatSeq(items, k))
  }

  datatype Outcome = Ok(v: Value) | Raised

  function NumberOr(n: Option<Number>): Outcome {
    if n.Some? then Ok(Num(n.value)) else Raised
  }

  function Operate(py: Python, op: BinOp, a: Value, b: Value): Outcome {
    if a.Num? && b.Num? then NumberOr(py.arith(op, a.n, b.n))
    else if Repeats(op, a, b) then
      if IsSequence(a) then Ok(Repeat(a, CountOf(b.n))) else Ok(Repeat(b, CountOf(a.n)))
    else
      match (op, a, b)
      case (Add, Text(s), Text(t)) => Ok(Text(s + t))
      case (Add, Bytes(s), Bytes(t)) => Ok(Bytes(s + t))
      case (Add, List(s), List(t)) => Ok(List(s + t))
      case (Add, Tuple(s), Tuple(t)) => Ok(Tuple(s + t))
      case (Mod, Text(s), _) => var r := py.format(s, b); if r.Some? then Ok(Text(r.value)) else Raised
      case (Mod, Bytes(s), _) => var r := py.format(s, b); if r.Some? then Ok(Bytes(r.value)) else Raised
      case _ => Raised
  }

  function Sign(py: Python, op: UnaryOp, v: Value): Outcome {
    if op.Not? then Ok(Num(Bool(!Truth(v))))
    else if v.Num? then NumberOr(py.sign(op, v.n))
    else Raised
  }

  // ---- attributes, calls, subscripts ----

  datatype Answer = NumberAnswer | TextAnswer | TextListAnswer | TextTupleAnswer | RatioAnswer | NoSuchMethod

  /** What a method of a value answers with, when the value has it. */
  function MethodAnswer(v: Value, attr: Attr): Answer {
    if v.Bytes? && (attr.Casefold? || attr.Isdecimal? || attr.Isnumeric?) then NoSuchMethod
    else if v.Text? || v.Bytes? then
      match attr
      case Count | Endswith | Find | Index | Isalnum | Isalpha | Isascii | Isdecimal | Isdigit | Islower
         | Isnumeric | Isspace | Istitle | Isupper | Rfind | Rindex | Startswith => NumberAnswer
      case Partition | Rpartition => TextTupleAnswer
      case Rsplit | Split | Splitlines => TextListAnswer
      case AsIntegerRatio | BitLength | Conjugate | Denominator | Imag | IsInteger | Numerator | Real | Unsafe(_) =>
        NoSuchMethod
      case _ => TextAnswer
    else if v.List? || v.Tuple? then
      match attr
      case Count | Index => NumberAnswer
      case _ => NoSuchMethod
    else if v.Num? then
      match attr
      case BitLength => if v.n.Int? || v.n.Bool? then NumberAnswer else NoSuchMethod
      case Conjugate => NumberAnswer
      case IsInteger => if v.n.Complex? then NoSuchMethod else NumberAnswer
      case AsIntegerRatio => if v.n.Complex? then NoSuchMethod else RatioAnswer
      case _ => NoSuchMethod
    else NoSuchMethod
  }

  function GetAttribute(py: Python, v: Value, attr: Attr): Outcome {
    if v.Num? && (attr.Real? || attr.Imag? || attr.Numerator? || attr.Denominator?) then NumberOr(py.part(attr, v.n))
    else if MethodAnswer(v, attr).NoSuchMethod? then Raised
    else Ok(Method(v, attr))
  }

  /** Text of the same kind, str or bytes, as the value whose method answered. */
  function TextLike(v: Value, s: string): Value {
    if v.Bytes? then Bytes(s) else Text(s)
  }

  function Texts(v: Value, ss: seq<string>): seq<Value> {
    seq(|ss|, i requires 0 <= i < |ss| => TextLike(v, ss[i]))
  }

  function CallMethod(py: Python, v: Value, attr: Attr, args: seq<Value>): Outcome {
    match MethodAnswer(v, attr)
    case NumberAnswer => NumberOr(py.numericMethod(v, attr, args))
    case TextAnswer =>
      var s := py.textMethod(v, attr, args);
      if s.Some? then Ok(TextLike(v, s.value)) else Raised
    case TextListAnswer =>
      var ss := py.textsMethod(v, attr, args);
      if ss.Some? then Ok(List(Texts(v, ss.value))) else Raised
    case TextTupleAnswer =>
      var ss := py.textsMethod(v, attr, args);
      if ss.Some? then Ok(Tuple(Texts(v, ss.value))) else Raised
    case RatioAnswer =>
      var q := if v.Num? then py.ratio(v.n) else None;
      if q.Some? then Ok(Tuple([Num(Int(q.value.0)), Num(Int(q.value.1))])) else Raised
    case NoSuchMethod => Raised
  }

  function ElementsOf(v: Value): seq<Value> {
    match v
    case List(items) => items
    case Tuple(items) => items
    case Text(s) => seq(|s|, i requires 0 <= i < |s| => Text([s[i]]))
    case Bytes(s) => seq(|s|, i requires 0 <= i < |s| => Num(Int(s[i] as int)))
    case _ => []
  }

  function CallBuiltin(py: Python, f: Builtin, args: seq<Value>): Outcome {
    match f
    case Str =>
      var s := py.str(args);
      if s.Some? then Ok(Text(s.value)) else Raised
    case Max | Min =>
      var candidates := if |args| == 1 then ElementsOf(args[0]) else args;
      var i := py.extremum(f, candidates);
      if i.Some? && i.value < |candidates| then Ok(candidates[i.value]) else Raised
    case _ => NumberOr(py.numeric(f, args))
  }

  function Invoke(py: Python, f: Value, args: seq<Value>): Outcome {
    match f
    case Function(b) => CallBuiltin(py, b, args)
    case Method(v, attr) => CallMethod(py, v, attr, args)
    case _ => Raised
  }

  function PickFrom<T>(s: seq<T>, at: seq<nat>): seq<T> {
    if at == [] then []
    else (if at[0] < |s| then [s[at[0]]] else []) + PickFrom(s, at[1..])
  }

  function GetItem(py: Python, v: Value, i: Value): Outcome {
    if IsSequence(v) && i.Num? then
      var k := py.position(|ElementsOf(v)|, i.n);
      if k.Some? && k.value < |ElementsOf(v)| then Ok(ElementsOf(v)[k.value]) else Raised
    else if IsSequence(v) && i.Slice? then
      var at := py.positions(|ElementsOf(v)|, i);
      if at.None? then Raised
      else
        match v
        case Text(s) => Ok(Text(PickFrom(s, at.value)))
        case Bytes(s) => Ok(Bytes(PickFrom(s, at.value)))
        case List(items) => Ok(List(PickFrom(items, at.value)))
        case Tuple(items) => Ok(Tuple(PickFrom(items, at.value)))
    else if v.Dict? && i.Text? && i.s in v.entries then Ok(v.entries[i.s])
    else Raised
  }

  // ---- eval(...) ----

  /** What evaluating answered, and whether a sequence was repeated on the way. */
  datatype Run = Run(out: Outcome, repeated: bool)
  datatype RunAll = RunAll(values: Option<seq<Value>>, repeated: bool)

  function LiteralValue(lit: Literal): Value {
    match lit
    case NumLit(n) => Num(n)
    case TextLit(s) => Text(s)
    case BytesLit(s) => Bytes(s)
    case NoneLit => NoneValue
    case EllipsisLit => Ellipsis
  }

  function ConstantValue(py: Python, c: Constant): real {
    match c
    case E => py.e
    case Pi | PiUpper | MPi => py.pi
    case Inch | Inches => 25.4
    case Foot | Feet => 304.8
  }

  /** The parameters are the locals, so they hide SAFE_NAMES. */
  function Lookup(py: Python, id: Ident, env: Params): Outcome {
    if id in env then Ok(env[id])
    else match id
      case Called(f) => Ok(Function(f))
      case Known(c) => Ok(Num(Float(ConstantValue(py, c))))
      case Other(_) => Raised
  }

  /** Kinds of node that the check refuses are given no meaning. */
  function Eval(py: Python, e: Expr, env: Params): Run
    decreases e, 1
  {
    match e
    case Const(lit) => Run(Ok(LiteralValue(lit)), false)
    case Name(id) => Run(Lookup(py, id, env), false)
    case Unary(op, x) =>
      var r := Eval(py, x, env);
      if r.out.Raised? then r else Run(Sign(py, op, r.out.v), r.repeated)
    case Binary(op, x, y) =>
      var a := Eval(py, x, env);
      if a.out.Raised? then a
      else
        var b := Eval(py, y, env);
        if b.out.Raised? then Run(Raised, a.repeated || b.repeated)
        else Run(Operate(py, op, a.out.v, b.out.v), a.repeated || b.repeated || Repeats(op, a.out.v, b.out.v))
    case Logical(op, xs) => EvalLogical(py, op, xs, env)
    case IfExp(t, x, y) =>
      var c := Eval(py, t, env);
      if c.out.Raised? then c
      else
        var r := if Truth(c.out.v) then Eval(py, x, env) else Eval(py, y, env);
        Run(r.out, c.repeated || r.repeated)
    case Compare(x, ops, ys) =>
      var a := Eval(py, x, env);
      if a.out.Raised? then a
      else
        var r := EvalChain(py, a.out.v, ops, ys, env);
        Run(r.out, a.repeated || r.repeated)
    case Call(f, args, keywords) =>
      var g := Eval(py, f, env);
      if g.out.Raised? then g
      else
        var xs := EvalAll(py, args, env);
        if xs.values.None? || keywords != [] then Run(Raised, g.repeated || xs.repeated)
        else Run(Invoke(py, g.out.v, xs.values.value), g.repeated || xs.repeated)
    case TupleExpr(xs) =>
      var r := EvalAll(py, xs, env);
      Run(if r.values.Some? then Ok(Tuple(r.values.value)) else Raised, r.repeated)
    case ListExpr(xs) =>
      var r := EvalAll(py, xs, env);
      Run(if r.values.Some? then Ok(List(r.values.value)) else Raised, r.repeated)
    case Subscript(x, i) =>
      var a := Eval(py, x, env);
      if a.out.Raised? then a
      else
        var b := Eval(py, i, env);
        if b.out.Raised? then Run(Raised, a.repeated || b.repeated)
        else Run(GetItem(py, a.out.v, b.out.v), a.repeated || b.repeated)
    case SliceExpr(lo, hi, stride) =>
      var a := Eval(py, lo, env);
      if a.out.Raised? then a
      else
        var b := Eval(py, hi, env);
        if b.out.Raised? then Run(Raised, a.repeated || b.repeated)
        else
          var c := Eval(py, stride, env);
          Run(if c.out.Ok? then Ok(Slice(a.out.v, b.out.v, c.out.v)) else Raised, a.repeated || b.repeated || c.repeated)
    case Attribute(x, attr) =>
      var a := Eval(py, x, env);
      if a.out.Raised? then a else Run(GetAttribute(py, a.out.v, attr), a.repeated)
    case Starred(_) => Run(Raised, false)
    case Unlisted(_) => Run(Raised, false)
  }

  function EvalAll(py: Python, es: seq<Expr>, env: Params): (r: RunAll)
    ensures r.values.Some? ==> |r.values.value| == |es|
    decreases es, 0
  {
    if es == [] then RunAll(Some([]), false)
    else
      var a := Eval(py, es[0], env);
      if a.out.Raised? then RunAll(None, a.repeated)
      else
        var r := EvalAll(py, es[1..], env);
        RunAll(if r.values.Some? then Some([a.out.v] + r.values.value) else None, a.repeated || r.repeated)
  }

  /** `and` and `or` answer with the operand that settled them. */
  function EvalLogical(py: Python, op: BoolOp, es: seq<Expr>, env: Params): Run
    decreases es, 0
  {
    if es == [] then Run(Raised, false)
    else
      var a := Eval(py, es[0], env);
      if a.out.Raised? || |es| == 1 || Truth(a.out.v) == op.Or? then a
      else
        var r := EvalLogical(py, op, es[1..], env);
        Run(r.out, a.repeated || r.repeated)
  }

  function EvalChain(py: Python, a: Value, ops: seq<CmpOp>, es: seq<Expr>, env: Params): Run
    decreases es, 0
  {
    if es == [] || ops == [] then Run(Ok(Num(Bool(true))), false)
    else
      var b := Eval(py, es[0], env);
      if b.out.Raised? then b
      else
        var c := py.compare(ops[0], a, b.out.v);
        if c.None? then Run(Raised, b.repeated)
        else if !c.value then Run(Ok(Num(Bool(false))), b.repeated)
        else
          var r := EvalChain(py, b.out.v, ops[1..], es[1..], env);
          Run(r.out, b.repeated || r.repeated)
  }

  // ---- _is_numeric and _check ----

  predicate NumericFunction(f: Builtin) {
    !f.Max? && !f.Min? && !f.Str?
  }

  predicate NumericAttribute(attr: Attr) {
    match attr
    case BitLength | Count | Denominator | Find | Imag | Index | Numerator | Real | Rfind | Rindex => true
    case _ => false
  }

  predicate IsNumeric(e: Expr, env: Params) {
    match e
    case Const(lit) => IntOrFloat(LiteralValue(lit))
    case Name(id) => id in env && IntOrFloat(env[id])
    case Unary(_, x) => IsNumeric(x, env)
    case Binary(_, x, y) => IsNumeric(x, env) && IsNumeric(y, env)
    case IfExp(_, x, y) => IsNumeric(x, env) && IsNumeric(y, env)
    case Compare(_, _, _) => true
    case Call(Name(Called(f)), _, _) => NumericFunction(f)
    case Call(Attribute(_, attr), _, _) => NumericAttribute(attr)
    case Attribute(_, attr) => NumericAttribute(attr)
    case _ => false
  }

  predicate AllowedOperator(op: BinOp) {
    op.Add? || op.Sub? || op.Mult? || op.Div? || op.FloorDiv? || op.Mod?
  }

  /** What `_check` asks of one node of the tree. */
  predicate NodeAccepted(e: Expr, env: Params) {
    match e
    case Binary(op, x, y) => AllowedOperator(op) && (op.Mult? ==> IsNumeric(x, env) && IsNumeric(y, env))
    case Attribute(_, attr) => !attr.Unsafe?
    case Call(f, args, keywords) =>
      (f.Name? || f.Attribute?) && keywords == [] && forall i | 0 <= i < |args| :: !args[i].Starred?
    case Starred(_) => false
    case Unlisted(_) => false
    case _ => true
  }

  /** `_check` walks the whole tree and accepts it when it accepts every node. */
  predicate Accepts(e: Expr, env: Params)
    decreases e, 1
  {
    && NodeAccepted(e, env)
    && match e
       case Const(_) => true
       case Name(_) => true
       case Unary(_, x) => Accepts(x, env)
       case Binary(_, x, y) => Accepts(x, env) && Accepts(y, env)
       case Logical(_, xs) => AcceptsAll(xs, env)
       case IfExp(t, x, y) => Accepts(t, env) && Accepts(x, env) && Accepts(y, env)
       case Compare(x, _, ys) => Accepts(x, env) && AcceptsAll(ys, env)
       case Call(f, args, keywords) => Accepts(f, env) && AcceptsAll(args, env) && AcceptsAll(keywords, env)
       case TupleExpr(xs) => AcceptsAll(xs, env)
       case ListExpr(xs) => AcceptsAll(xs, env)
       case Subscript(x, i) => Accepts(x, env) && Accepts(i, env)
       case SliceExpr(lo, hi, stride) => Accepts(lo, env) && Accepts(hi, env) && Accepts(stride, env)
       case Attribute(x, _) => Accepts(x, env)
       case Starred(x) => Accepts(x, env)
       case Unlisted(xs) => AcceptsAll(xs, env)
  }

  predicate AcceptsAll(es: seq<Expr>, env: Params)
    decreases es, 0
  {
    es == [] || (Accepts(es[0], env) && AcceptsAll(es[1..], env))
  }

  // ---- soundness ----

  /** Whether calling the value may answer with a string, a list or a tuple. */
  predicate CanAnswerSequence(v: Value) {
    match v
    case Function(f) => !NumericFunction(f)
    case Method(self, attr) => !MethodAnswer(self, attr).NumberAnswer? && !MethodAnswer(self, attr).NoSuchMethod?
    case _ => false
  }

  /** No parameter hides a numeric function with something that may answer a sequence. */
  predicate NumericNamesAreSafe(env: Params) {
    forall f | Called(f) in env && NumericFunction(f) :: !CanAnswerSequence(env[Called(f)])
  }

  /** A number, or a method nobody has called. */
  predicate Unrepeatable(v: Value) { v.Num? || v.Method? }

  /** Whatever _is_numeric accepts evaluates, if it evaluates at all, to a number or
      to an uncalled method - of a numeric attribute when the node is an attribute. */
  lemma {:induction false} NumericIsUnrepeatable(py: Python, e: Expr, env: Params)
    requires NumericNamesAreSafe(env) && IsNumeric(e, env) && Eval(py, e, env).out.Ok?
    ensures Unrepeatable(Eval(py, e, env).out.v)
    decreases e
  {
    match e
    case Unary(_, x) => NumericIsUnrepeatable(py, x, env);
    case Binary(_, x, y) =>
      NumericIsUnrepeatable(py, x, env);
      NumericIsUnrepeatable(py, y, env);
    case IfExp(t, x, y) =>
      if Truth(Eval(py, t, env).out.v) {
        NumericIsUnrepeatable(py, x, env);
      } else {
        NumericIsUnrepeatable(py, y, env);
      }
    case Compare(x, ops, ys) => ChainAnswersNumber(py, Eval(py, x, env).out.v, ops, ys, env);
    case Call(Name(id), args, _) =>
      assert Eval(py, Name(id), env).out == Lookup(py, id, env);
    case Call(Attribute(x, attr), args, _) =>
      AttributeValue(py, x, attr, env);
    case _ =>
  }

  lemma {:induction false} ChainAnswersNumber(py: Python, a: Value, ops: seq<CmpOp>, es: seq<Expr>, env: Params)
    requires EvalChain(py, a, ops, es, env).out.Ok?
    ensures IsNumber(EvalChain(py, a, ops, es, env).out.v)
    decreases es
  {
    if es != [] && ops != [] {
      var b := Eval(py, es[0], env);
      var c := py.compare(ops[0], a, b.out.v);
      if c == Some(true) { ChainAnswersNumber(py, b.out.v, ops[1..], es[1..], env); }
    }
  }

  /** Reading an attribute gives a number or that very method. */
  lemma AttributeValue(py: Python, x: Expr, attr: Attr, env: Params)
    requires Eval(py, Attribute(x, attr), env).out.Ok?
    ensures var v := Eval(py, Attribute(x, attr), env).out.v;
            v.Num? || (v.Method? && v.attr == attr && !MethodAnswer(v.self, attr).NoSuchMethod?)
  {}

  lemma AcceptedOperandsNeverRepeat(py: Python, op: BinOp, x: Expr, y: Expr, env: Params)
    requires NumericNamesAreSafe(env) && NodeAccepted(Binary(op, x, y), env)
    requires !Eval(py, x, env).repeated && !Eval(py, y, env).repeated
    ensures !Eval(py, Binary(op, x, y), env).repeated
  {
    if op.Mult? && Eval(py, x, env).out.Ok? && Eval(py, y, env).out.Ok? {
      NumericIsUnrepeatable(py, x, env);
      NumericIsUnrepeatable(py, y, env);
    }
  }

  /** In an expression the check accepts, no sequence is ever repeated. */
  lemma {:induction false} AcceptedNeverRepeats(py: Python, e: Expr, env: Params)
    requires NumericNamesAreSafe(env) && Accepts(e, env)
    ensures !Eval(py, e, env).repeated
    decreases e, 2
  {
    if e.Unary? || e.Binary? || e.Logical? {
      AcceptedOperatorNeverRepeats(py, e, env);
    } else if e.IfExp? || e.Compare? {
      AcceptedChoiceNeverRepeats(py, e, env);
    } else if e.Call? || e.Subscript? || e.Attribute? {
      AcceptedAccessNeverRepeats(py, e, env);
    } else if e.TupleExpr? || e.ListExpr? || e.SliceExpr? {
      AcceptedPartsNeverRepeat(py, e, env);
    } else {
      AcceptedLeafNeverRepeats(py, e, env);
    }
  }

  lemma AcceptedLeafNeverRepeats(py: Python, e: Expr, env: Params)
    requires Accepts(e, env) && !e.Unary? && !e.Binary? && !e.Logical? && !e.IfExp? && !e.Compare?
    requires !e.Call? && !e.Subscript? && !e.Attribute? && !e.TupleExpr? && !e.ListExpr? && !e.SliceExpr?
    ensures !Eval(py, e, env).repeated
  {}

  lemma {:induction false} AcceptedOperatorNeverRepeats(py: Python, e: Expr, env: Params)
    requires NumericNamesAreSafe(env) && Accepts(e, env) && (e.Unary? || e.Binary? || e.Logical?)
    ensures !Eval(py, e, env).repeated
    decreases e, 1
  {
    match e
    case Unary(_, x) => AcceptedNeverRepeats(py, x, env);
    case Binary(op, x, y) =>
      AcceptedNeverRepeats(py, x, env);
      AcceptedNeverRepeats(py, y, env);
      AcceptedOperandsNeverRepeat(py, op, x, y, env);
    case Logical(op, xs) => AcceptedLogicalNeverRepeats(py, op, xs, env);
  }

  lemma {:induction false} AcceptedChoiceNeverRepeats(py: Python, e: Expr, env: Params)
    requires NumericNamesAreSafe(env) && Accepts(e, env) && (e.IfExp? || e.Compare?)
    ensures !Eval(py, e, env).repeated
    decreases e, 1
  {
    match e
    case IfExp(t, x, y) =>
      AcceptedNeverRepeats(py, t, env);
      AcceptedNeverRepeats(py, x, env);
      AcceptedNeverRepeats(py, y, env);
    case Compare(x, ops, ys) =>
      AcceptedNeverRepeats(py, x, env);
      var a := Eval(py, x, env);
      if a.out.Ok? { AcceptedChainNeverRepeats(py, a.out.v, ops, ys, env); }
  }

  lemma {:induction false} AcceptedAccessNeverRepeats(py: Python, e: Expr, env: Params)
    requires NumericNamesAreSafe(env) && Accepts(e, env) && (e.Call? || e.Subscript? || e.Attribute?)
    ensures !Eval(py, e, env).repeated
    decreases e, 1
  {
    match e
    case Call(f, args, _) =>
      AcceptedNeverRepeats(py, f, env);
      AcceptedAllNeverRepeat(py, args, env);
    case Subscript(x, i) =>
      AcceptedNeverRepeats(py, x, env);
      AcceptedNeverRepeats(py, i, env);
    case Attribute(x, _) => AcceptedNeverRepeats(py, x, env);
  }

  lemma {:induction false} AcceptedPartsNeverRepeat(py: Python, e: Expr, env: Params)
    requires NumericNamesAreSafe(env) && Accepts(e, env) && (e.TupleExpr? || e.ListExpr? || e.SliceExpr?)
    ensures !Eval(py, e, env).repeated
    decreases e, 1
  {
    match e
    case TupleExpr(xs) => AcceptedAllNeverRepeat(py, xs, env);
    case ListExpr(xs) => AcceptedAllNeverRepeat(py, xs, env);
    case SliceExpr(lo, hi, stride) =>
      AcceptedNeverRepeats(py, lo, env);
      AcceptedNeverRepeats(py, hi, env);
      AcceptedNeverRepeats(py, stride, env);
  }

  lemma {:induction false} AcceptedAllNeverRepeat(py: Python, es: seq<Expr>, env: Params)
    requires NumericNamesAreSafe(env) && AcceptsAll(es, env)
    ensures !EvalAll(py, es, env).repeated
    decreases es, 0
  {
    if es != [] {
      AcceptedNeverRepeats(py, es[0], env);
      AcceptedAllNeverRepeat(py, es[1..], env);
    }
  }

  lemma {:induction false} AcceptedLogicalNeverRepeats(py: Python, op: BoolOp, es: seq<Expr>, env: Params)
    requires NumericNamesAreSafe(env) && AcceptsAll(es, env)
    ensures !EvalLogical(py, op, es, env).repeated
    decreases es, 0
  {
    if es != [] {
      AcceptedNeverRepeats(py, es[0], env);
      AcceptedLogicalNeverRepeats(py, op, es[1..], env);
    }
  }

  lemma {:induction false} AcceptedChainNeverRepeats(py: Python, a: Value, ops: seq<CmpOp>, es: seq<Expr>, env: Params)
    requires NumericNamesAreSafe(env) && AcceptsAll(es, env)
    ensures !EvalChain(py, a, ops, es, env).repeated
    decreases es, 0
  {
    if es != [] && ops != [] {
      AcceptedNeverRepeats(py, es[0], env);
      var b := Eval(py, es[0], env);
      if b.out.Ok? { AcceptedChainNeverRepeats(py, b.out.v, ops[1..], es[1..], env); }
    }
  }

  /** `str(1) * 10` is a call like any other, would repeat if it ran, and is refused. */
  lemma StrTimesNumberIsRefused(py: Python, env: Params)
    requires Called(Str) !in env && py.str([Num(Int(1))]) == Some("1")
    ensures var e := Binary(Mult, Call(Name(Called(Str)), [Const(NumLit(Int(1)))], []), Const(NumLit(Int(10))));
            Eval(py, e, env).repeated && !Accepts(e, env)
  {
    var one := Const(NumLit(Int(1)));
    assert Eval(py, one, env).out == Ok(Num(Int(1)));
    assert EvalAll(py, [one][1..], env) == RunAll(Some([]), false);
    assert [Num(Int(1))] + [] == [Num(Int(1))];
    assert EvalAll(py, [one], env).values.value == [Num(Int(1))];
  }

  /** The check is sound but not complete: `pi * 2` is a number and is refused,
      because only parameters count as names of numbers. */
  lemma PiTimesTwoIsRefused(py: Python, env: Params)
    requires Known(Pi) !in env && py.arith(Mult, Float(py.pi), Int(2)).Some?
    ensures var e := Binary(Mult, Name(Known(Pi)), Const(NumLit(Int(2))));
            Eval(py, e, env).out.Ok? && IsNumber(Eval(py, e, env).out.v) && !Eval(py, e, env).repeated
            && !Accepts(e, env)
  {
    assert Eval(py, Name(Known(Pi)), env).out == Ok(Num(Float(py.pi)));
    assert Eval(py, Const(NumLit(Int(2))), env).out == Ok(Num(Int(2)));
  }

  // ---- a callable in the place of a numeric function ----

  /** Arguments for which a callable that can answer a sequence does so. */
  function Fitting(f: Value): seq<Value> {
    match f
    case Function(Str) => [Text("a")]
    case Function(_) => [Text("a"), Text("b")]
    case Method(v, attr) => (
      match attr
      case Center | Ljust | Rjust | Zfill => [Num(Int(3))]
      case Join => [List([])]
      case Partition | Rpartition | Removeprefix | Removesuffix => [TextLike(v, "a")]
      case Replace => [TextLike(v, "a"), TextLike(v, "b")]
      case _ => [])
    case _ => []
  }

  /** Such an argument as it is written. */
  function Written(v: Value): Expr {
    match v
    case Text(s) => Const(TextLit(s))
    case Bytes(s) => Const(BytesLit(s))
    case Num(n) => Const(NumLit(n))
    case _ => ListExpr([])
  }

  function AllWritten(vs: seq<Value>): (r: seq<Expr>)
    ensures |r| == |vs|
  {
    if vs == [] then [] else [Written(vs[0])] + AllWritten(vs[1..])
  }

  /** f(...) with arguments that fit what the name stands for. */
  function FittingCall(f: Builtin, env: Params): Expr
    requires Called(f) in env
  {
    Call(Name(Called(f)), AllWritten(Fitting(env[Called(f)])), [])
  }

  lemma WrittenIsRead(py: Python, v: Value, env: Params)
    requires v.Text? || v.Bytes? || v.Num? || v == List([])
    ensures Accepts(Written(v), env) && Eval(py, Written(v), env) == Run(Ok(v), false)
  {}

  lemma {:induction false} AllWrittenAreRead(py: Python, vs: seq<Value>, env: Params)
    requires forall i | 0 <= i < |vs| :: vs[i].Text? || vs[i].Bytes? || vs[i].Num? || vs[i] == List([])
    ensures AcceptsAll(AllWritten(vs), env)
    ensures EvalAll(py, AllWritten(vs), env) == RunAll(Some(vs), false)
    ensures forall i | 0 <= i < |vs| :: !AllWritten(vs)[i].Starred?
  {
    if vs != [] {
      WrittenIsRead(py, vs[0], env);
      AllWrittenAreRead(py, vs[1..], env);
      assert AllWritten(vs)[1..] == AllWritten(vs[1..]);
      assert [vs[0]] + vs[1..] == vs;
    }
  }

  lemma SequenceAnswered(py: Python, f: Value)
    requires CanAnswerSequence(f) && Invoke(py, f, Fitting(f)).Ok?
    ensures IsSequence(Invoke(py, f, Fitting(f)).v)
  {}

  /** A parameter in the place of a numeric function is called instead of it: where
      Python answers the call, what it answered is repeated. */
  lemma CallableParameterSlipsThrough(py: Python, f: Builtin, env: Params)
    requires NumericFunction(f) && Called(f) in env && CanAnswerSequence(env[Called(f)])
    requires Invoke(py, env[Called(f)], Fitting(env[Called(f)])).Ok?
    ensures var e := Binary(Mult, FittingCall(f, env), Const(NumLit(Int(10))));
            Accepts(e, env) && Eval(py, e, env).repeated
  {
    var v := env[Called(f)];
    FittingCallAnswers(py, f, env);
    SequenceAnswered(py, v);
    assert Eval(py, Const(NumLit(Int(10))), env).out == Ok(Num(Int(10)));
  }

  lemma FittingCallAnswers(py: Python, f: Builtin, env: Params)
    requires Called(f) in env
    ensures Accepts(FittingCall(f, env), env)
    ensures Eval(py, FittingCall(f, env), env) == Run(Invoke(py, env[Called(f)], Fitting(env[Called(f)])), false)
  {
    AllWrittenAreRead(py, Fitting(env[Called(f)]), env);
    assert Eval(py, Name(Called(f)), env) == Run(Ok(env[Called(f)]), false);
  }

  /** A Python that answers these calls and few others; "x" stands for any text. */
  const OBLIGING := Python(
    (op, m, n) => None, (op, n) => None, (attr, n) => None, (op, v, u) => None,
    0.0, 0.0,
    (f, args) => None,
    (f, args) => if args == [Text("a"), Text("b")] then Some(if f == Max then 1 else 0) else None,
    args => if args == [Text("a")] then Some("a") else None,
    (spec, v) => None,
    (v, attr, args) => None,
    (v, attr, args) => if args == Fitting(Method(v, attr)) then Some("x") else None,
    (v, attr, args) => if args == Fitting(Method(v, attr)) then Some(["x"]) else None,
    n => Some((0, 1)), (k, v) => None, (k, n) => None)

  lemma ObligingAnswers(f: Value)
    requires CanAnswerSequence(f)
    ensures Invoke(OBLIGING, f, Fitting(f)).Ok?
  {}

  /** The check is sound for exactly these parameters: in every expression it accepts no
      multiplication is ever applied to a sequence, whatever Python answers - if and only
      if no parameter hides a numeric function with what may answer a sequence. */
  lemma SoundExactlyIfNumericNamesAreSafe(env: Params)
    ensures (forall py: Python, e: Expr | Accepts(e, env) :: !Eval(py, e, env).repeated) <==> NumericNamesAreSafe(env)
  {
    if NumericNamesAreSafe(env) {
      forall py: Python, e: Expr | Accepts(e, env) ensures !Eval(py, e, env).repeated { AcceptedNeverRepeats(py, e, env); }
    } else {
      var f :| Called(f) in env && NumericFunction(f) && CanAnswerSequence(env[Called(f)]);
      ObligingAnswers(env[Called(f)]);
      CallableParameterSlipsThrough(OBLIGING, f, env);
    }
  }

  /** Plain values are such parameters. */
  lemma NotCallableIsSafe(env: Params)
    requires NotCallable(env)
    ensures NumericNamesAreSafe(env)
  {}

  // ---- evaluate ----

  datatype Syntax = Syntax(parse: string -> Option<Expr>, ident: string -> Ident)
  datatype Evaluated = Answered(v: Value) | ExpressionError

  predicate Space(c: char) { c == ' ' || 9 as char <= c <= 13 as char || 28 as char <= c <= 31 as char }

  function StripLeft(s: string): string {
    if s != "" && Space(s[0]) then StripLeft(s[1..]) else s
  }

  function StripRight(s: string): string {
    if s != "" && Space(s[|s|-1]) then StripRight(s[..|s|-1]) else s
  }

  function StripText(s: string): string {
    StripRight(StripLeft(s))
  }

  /** Where the first colon is, or the length of the text. */
  function Colon(s: string): (k: nat)
    ensures k <= |s| && (k < |s| ==> s[k] == ':') && forall i | 0 <= i < k :: s[i] != ':'
  {
    if s == "" || s[0] == ':' then 0 else 1 + Colon(s[1..])
  }

  /** `_eval`: parse, check, and only then run. */
  function CheckAndEval(py: Python, syn: Syntax, text: string, env: Params): (Evaluated, bool) {
    var tree := syn.parse(text);
    if tree.None? || !Accepts(tree.value, env) then (ExpressionError, false)
    else
      var r := Eval(py, tree.value, env);
      (if r.out.Ok? then Answered(r.out.v) else ExpressionError, r.repeated)
  }

  /** The three forms: a parameter's name, name:expression, an expression. */
  function Evaluate(py: Python, syn: Syntax, text: string, env: Params): (Evaluated, bool) {
    var name := syn.ident(StripText(text));
    if name in env then (Answered(env[name]), false)
    else
      var k := Colon(text);
      var head := if k < |text| then syn.ident(StripText(text[..k])) else Other("");
      if k < |text| && head in env then
        CheckAndEval(py, syn, text[k+1..], env[syn.ident("value") := env[head]])
      else CheckAndEval(py, syn, text, env)
  }

  /** Reading a declaration never repeats a sequence, whatever its text says: for
      parameters that are plain values, and for all that are safe so long as "value",
      which the second form binds, names no function. */
  lemma EvaluateNeverRepeats(py: Python, syn: Syntax, text: string, env: Params)
    requires NotCallable(env) || (NumericNamesAreSafe(env) && !syn.ident("value").Called?)
    ensures !Evaluate(py, syn, text, env).1
  {
    if NotCallable(env) { NotCallableIsSafe(env); }
    forall tail, env' | NumericNamesAreSafe(env') ensures !CheckAndEval(py, syn, tail, env').1 {
      var tree := syn.parse(tail);
      if tree.Some? && Accepts(tree.value, env') { AcceptedNeverRepeats(py, tree.value, env'); }
    }
    forall id | id in env ensures NumericNamesAreSafe(env[syn.ident("value") := env[id]]) {}
  }

  // ---- what a declaration answers ----

  /** What str.strip takes off. */
  predicate Blank(s: string) { forall i | 0 <= i < |s| :: s[i] as int in {9, 10, 11, 12, 13, 28, 29, 30, 31, 32} }

  predicate Trimmed(s: string) { s == "" || (!Blank([s[0]]) && !Blank([s[|s|-1]])) }

  lemma {:induction false} LeftPadding(pad: string, s: string)
    requires Blank(pad) && (s == "" || !Blank([s[0]]))
    ensures StripLeft(pad + s) == s
  {
    if pad == "" {
      assert pad + s == s;
      if s != "" { assert [s[0]][0] == s[0]; }
    } else {
      assert Blank(pad[1..]) && (pad + s)[1..] == pad[1..] + s;
      LeftPadding(pad[1..], s);
    }
  }

  lemma {:induction false} RightPadding(s: string, pad: string)
    requires Blank(pad) && (s == "" || !Blank([s[|s|-1]]))
    ensures StripRight(s + pad) == s
  {
    if pad == "" {
      assert s + pad == s;
      if s != "" { assert [s[|s|-1]][0] == s[|s|-1]; }
    } else {
      var n := |pad| - 1;
      assert Blank(pad[..n]) && (s + pad)[..|s + pad|-1] == s + pad[..n];
      RightPadding(s, pad[..n]);
    }
  }

  lemma {:induction false} OnlyPadding(pad: string)
    requires Blank(pad)
    ensures StripLeft(pad) == ""
  {
    assert pad + "" == pad;
    LeftPadding(pad, "");
  }

  lemma StrippedPadding(left: string, s: string, right: string)
    requires Blank(left) && Trimmed(s) && Blank(right)
    ensures StripText(left + s + right) == s
  {
    if s == "" {
      assert left + s + right == left + right && Blank(left + right);
      OnlyPadding(left + right);
    } else {
      assert left + s + right == left + (s + right) && (s + right)[0] == s[0];
      LeftPadding(left, s + right);
      RightPadding(s, right);
    }
  }

  lemma {:induction false} ColonAfter(head: string, tail: string)
    requires ':' !in head
    ensures Colon(head + ":" + tail) == |head|
  {
    var text := head + ":" + tail;
    assert text[|head|] == ':' && forall i | 0 <= i < |head| :: text[i] == head[i];
  }

  /** What a tree gives for these parameters: an error if there is none, or it is refused,
      or evaluating it raises, and else what evaluating it answers. */
  predicate Gives(py: Python, tree: Option<Expr>, env: Params, r: Evaluated) {
    match r
    case ExpressionError => tree.None? || !Accepts(tree.value, env) || Eval(py, tree.value, env).out.Raised?
    case Answered(v) => tree.Some? && Accepts(tree.value, env) && Eval(py, tree.value, env).out == Ok(v)
  }

  /** A text that is a parameter's name, with blanks around it or without, answers the
      parameter as it is. */
  lemma ParameterIsItsValue(py: Python, syn: Syntax, left: string, name: string, right: string, env: Params)
    requires Blank(left) && Trimmed(name) && Blank(right) && syn.ident(name) in env
    ensures Evaluate(py, syn, left + name + right, env) == (Answered(env[syn.ident(name)]), false)
  {
    StrippedPadding(left, name, right);
  }

  /** A parameter's name, a colon and an expression: the expression, in which `value` is
      the parameter and all other names are what they were. */
  lemma ValueIsTheParameter(py: Python, syn: Syntax, left: string, head: string, right: string, tail: string, env: Params, env': Params)
    requires Blank(left) && Trimmed(head) && Blank(right) && ':' !in left + head + right
    requires syn.ident(head) in env && syn.ident(StripText(left + head + right + ":" + tail)) !in env
    requires syn.ident("value") in env' && env'[syn.ident("value")] == env[syn.ident(head)]
    requires forall id | id != syn.ident("value") :: (id in env' <==> id in env) && (id in env ==> env'[id] == env[id])
    ensures Gives(py, syn.parse(tail), env', Evaluate(py, syn, left + head + right + ":" + tail, env).0)
  {
    var before := left + head + right;
    var text := before + ":" + tail;
    ColonAfter(before, tail);
    assert text[..|before|] == before && text[|before| + 1..] == tail;
    StrippedPadding(left, head, right);
    assert env' == env[syn.ident("value") := env[syn.ident(head)]];
  }

  /** In particular the expression `value` answers the parameter. */
  lemma ValueAnswersTheParameter(py: Python, syn: Syntax, left: string, head: string, right: string, tail: string, env: Params)
    requires Blank(left) && Trimmed(head) && Blank(right) && ':' !in left + head + right
    requires syn.ident(head) in env && syn.ident(StripText(left + head + right + ":" + tail)) !in env
    requires syn.parse(tail) == Some(Name(syn.ident("value")))
    ensures Evaluate(py, syn, left + head + right + ":" + tail, env).0 == Answered(env[syn.ident(head)])
  {
    var env' := env[syn.ident("value") := env[syn.ident(head)]];
    ValueIsTheParameter(py, syn, left, head, right, tail, env, env');
    assert Eval(py, Name(syn.ident("value")), env').out == Ok(env[syn.ident(head)]);
  }

  /** Any other text is an expression itself: it has no colon, or what stands before the
      first one is no parameter. */
  lemma OtherTextIsItsExpression(py: Python, syn: Syntax, left: string, head: string, right: string, tail: string, text: string, env: Params)
    requires Blank(left) && Trimmed(head) && Blank(right) && ':' !in left + head + right
    requires text == left + head + right || (text == left + head + right + ":" + tail && syn.ident(head) !in env)
    requires syn.ident(StripText(text)) !in env
    ensures Gives(py, syn.parse(text), env, Evaluate(py, syn, text, env).0)
  {
    var before := left + head + right;
    StrippedPadding(left, head, right);
    if text != before {
      ColonAfter(before, tail);
      assert text[..|before|] == before;
    }
  }

  // ---- what the check lets through ----

  /** Refused as nodes, wherever they stand: all operators but + - * / // and %, attributes
      that are not on the list, calls of anything but a name or an attribute, keywords,
      stars, and kinds of node that are not on the list. */
  lemma RefusedNodes(e: Expr, env: Params)
    requires Accepts(e, env)
    ensures e.Binary? ==> (e.op.Add? || e.op.Sub? || e.op.Mult? || e.op.Div? || e.op.FloorDiv? || e.op.Mod?) && Accepts(e.left, env) && Accepts(e.right, env)
    ensures e.Attribute? ==> !e.attr.Unsafe? && Accepts(e.value, env)
    ensures e.Call? ==> (e.func.Name? || e.func.Attribute?) && e.keywords == [] && Accepts(e.func, env)
                        && forall i | 0 <= i < |e.args| :: !e.args[i].Starred? && Accepts(e.args[i], env)
    ensures !e.Starred? && !e.Unlisted?
  {
    if e.Call? { AcceptedOneByOne(e.args, env); }
  }

  lemma {:induction false} AcceptedOneByOne(es: seq<Expr>, env: Params)
    ensures AcceptsAll(es, env) <==> forall i | 0 <= i < |es| :: Accepts(es[i], env)
  {
    if es != [] {
      AcceptedOneByOne(es[1..], env);
      assert es == [es[0]] + es[1..];
    }
  }

  /** And nothing else is refused but products of what is not certainly a number: what is
      made of accepted parts in any other way is accepted. */
  lemma AcceptedArithmetic(x: Expr, y: Expr, op: BinOp, uop: UnaryOp, lit: Literal, id: Ident, env: Params)
    requires Accepts(x, env) && Accepts(y, env)
    ensures Accepts(Const(lit), env) && Accepts(Name(id), env) && Accepts(Unary(uop, x), env)
    ensures op.Add? || op.Sub? || op.Div? || op.FloorDiv? || op.Mod? ==> Accepts(Binary(op, x, y), env)
    ensures Accepts(Binary(Mult, x, y), env) <==> IsNumeric(x, env) && IsNumeric(y, env)
  {}

  lemma AcceptedChoices(x: Expr, y: Expr, z: Expr, xs: seq<Expr>, bop: BoolOp, ops: seq<CmpOp>, env: Params)
    requires Accepts(x, env) && Accepts(y, env) && Accepts(z, env) && AcceptsAll(xs, env)
    ensures Accepts(Logical(bop, xs), env) && Accepts(IfExp(x, y, z), env) && Accepts(Compare(x, ops, xs), env)
  {}

  lemma AcceptedAccess(x: Expr, y: Expr, z: Expr, xs: seq<Expr>, attr: Attr, env: Params)
    requires Accepts(x, env) && Accepts(y, env) && Accepts(z, env) && AcceptsAll(xs, env)
    ensures Accepts(TupleExpr(xs), env) && Accepts(ListExpr(xs), env) && Accepts(Subscript(x, y), env) && Accepts(SliceExpr(x, y, z), env)
    ensures !attr.Unsafe? ==> Accepts(Attribute(x, attr), env)
  {}

  lemma AcceptedCall(f: Expr, xs: seq<Expr>, env: Params)
    requires Accepts(f, env) && (f.Name? || f.Attribute?) && forall i | 0 <= i < |xs| :: Accepts(xs[i], env)
    ensures Accepts(Call(f, xs, []), env)
  {
    AcceptedOneByOne(xs, env);
    forall i | 0 <= i < |xs| ensures !xs[i].Starred? { RefusedNodes(xs[i], env); }
  }

  /** What is certainly a number: literals and parameters that are one, what is made of
      those, a comparison, and what the listed functions and attributes answer. */
  lemma CertainlyNumbers(x: Expr, y: Expr, t: Expr, op: BinOp, uop: UnaryOp, n: Number, id: Ident, env: Params)
    ensures IsNumeric(Const(NumLit(n)), env) <==> !n.Complex?
    ensures IsNumeric(Name(id), env) <==> id in env && env[id].Num? && !env[id].n.Complex?
    ensures IsNumeric(Unary(uop, x), env) <==> IsNumeric(x, env)
    ensures IsNumeric(Binary(op, x, y), env) <==> IsNumeric(x, env) && IsNumeric(y, env)
    ensures IsNumeric(IfExp(t, x, y), env) <==> IsNumeric(x, env) && IsNumeric(y, env)
  {}

  lemma ComparisonsAreNumbers(x: Expr, ops: seq<CmpOp>, xs: seq<Expr>, env: Params)
    ensures IsNumeric(Compare(x, ops, xs), env)
  {}

  lemma NumbersByCall(f: Builtin, xs: seq<Expr>, env: Params)
    ensures IsNumeric(Call(Name(Called(f)), xs, []), env) <==> f != Max && f != Min && f != Str
  {}

  lemma NumbersByAttribute(x: Expr, attr: Attr, xs: seq<Expr>, env: Params)
    ensures IsNumeric(Attribute(x, attr), env) <==> IsNumeric(Call(Attribute(x, attr), xs, []), env)
    ensures IsNumeric(Attribute(x, attr), env) <==>
              || attr.BitLength? || attr.Count? || attr.Denominator? || attr.Find? || attr.Imag?
              || attr.Index? || attr.Numerator? || attr.Real? || attr.Rfind? || attr.Rindex?
  {}

  // ---- the evaluator is Python's ----

  /** What counts as false: False, zeros, None, and what is empty. */
  lemma FalseValues(v: Value)
    ensures !Truth(v) <==>
              || v == Num(Bool(false)) || v == Num(Int(0)) || v == Num(Float(0.0)) || v == Num(Complex(0.0, 0.0))
              || v == Text("") || v == Bytes("") || v == List([]) || v == Tuple([]) || v == Dict(map[]) || v == NoneValue
  {}

  lemma {:induction false} RepeatedLength<T>(s: seq<T>, k: nat)
    ensures |RepeatSeq(s, k)| == k * |s|
  {
    if k > 0 {
      RepeatedLength(s, k - 1);
      assert k * |s| == (k - 1) * |s| + |s|;
    }
  }

  /** The j-th round of k has the items in their order. */
  lemma {:induction false} RepeatedItems<T>(s: seq<T>, k: nat, j: nat, r: nat)
    requires j < k && r < |s|
    ensures j * |s| + r < |RepeatSeq(s, k)| == k * |s| && RepeatSeq(s, k)[j * |s| + r] == s[r]
  {
    RepeatedLength(s, k);
    RepeatedLength(s, k - 1);
    if j < k - 1 { RepeatedItems(s, k - 1, j, r); }
  }

  /** A text, bytes, a list or a tuple times an int repeats it, on either side: a bool
      counts as 0 or 1, and what is not positive gives nothing. */
  lemma RepeatingAnswers(py: Python, items: seq<Value>, s: string, k: int, b: bool)
    ensures forall n | n in {Num(Int(k)), Num(Bool(b))} ::
              && Repeats(Mult, Text(s), n) && Repeats(Mult, n, Text(s)) && Repeats(Mult, Bytes(s), n) && Repeats(Mult, n, Bytes(s))
              && Repeats(Mult, List(items), n) && Repeats(Mult, n, List(items)) && Repeats(Mult, Tuple(items), n) && Repeats(Mult, n, Tuple(items))
    ensures var rs, ri := RepeatSeq(s, k), RepeatSeq(items, k);
            && Operate(py, Mult, Text(s), Num(Int(k))) == Operate(py, Mult, Num(Int(k)), Text(s)) == Ok(Text(rs))
            && Operate(py, Mult, Bytes(s), Num(Int(k))) == Operate(py, Mult, Num(Int(k)), Bytes(s)) == Ok(Bytes(rs))
            && Operate(py, Mult, List(items), Num(Int(k))) == Operate(py, Mult, Num(Int(k)), List(items)) == Ok(List(ri))
            && Operate(py, Mult, Tuple(items), Num(Int(k))) == Operate(py, Mult, Num(Int(k)), Tuple(items)) == Ok(Tuple(ri))
    ensures Operate(py, Mult, Text(s), Num(Bool(b))) == Ok(Text(if b then s else ""))
    ensures k <= 0 ==> RepeatSeq(s, k) == "" && RepeatSeq(items, k) == []
  {
    assert RepeatSeq(s, 0) == "" && RepeatSeq(s, 1) == s;
  }

  /** Nothing else repeats. */
  lemma OnlyTheseRepeat(op: BinOp, a: Value, b: Value)
    requires Repeats(op, a, b)
    ensures op == Mult
    ensures ((a.Text? || a.Bytes? || a.List? || a.Tuple?) && b.Num? && (b.n.Int? || b.n.Bool?))
         || ((b.Text? || b.Bytes? || b.List? || b.Tuple?) && a.Num? && (a.n.Int? || a.n.Bool?))
  {}

  /** Two of one kind are added by putting one after the other. */
  lemma AddingAppends(py: Python, s: string, t: string, xs: seq<Value>, ys: seq<Value>)
    ensures Operate(py, Add, Text(s), Text(t)) == Ok(Text(s + t)) && Operate(py, Add, Bytes(s), Bytes(t)) == Ok(Bytes(s + t))
    ensures Operate(py, Add, List(xs), List(ys)) == Ok(List(xs + ys)) && Operate(py, Add, Tuple(xs), Tuple(ys)) == Ok(Tuple(xs + ys))
    ensures Operate(py, Add, Text(s), Bytes(t)).Raised? && Operate(py, Add, List(xs), Tuple(ys)).Raised?
  {}

  /** Methods of a text that answer a text; bytes have them too, but for casefold. */
  lemma TextsFromTexts(s: string, attr: Attr)
    ensures MethodAnswer(Text(s), attr).TextAnswer? <==>
              || attr.Capitalize? || attr.Casefold? || attr.Center? || attr.Join? || attr.Ljust? || attr.Lower? || attr.Lstrip?
              || attr.Removeprefix? || attr.Removesuffix? || attr.Replace? || attr.Rjust? || attr.Rstrip? || attr.Strip?
              || attr.Swapcase? || attr.Title? || attr.Upper? || attr.Zfill?
    ensures MethodAnswer(Bytes(s), attr) ==
              if attr.Casefold? || attr.Isdecimal? || attr.Isnumeric? then NoSuchMethod else MethodAnswer(Text(s), attr)
  {}

  /** Those that answer a list or a tuple of texts, and those that are a number's. */
  lemma ListsFromTexts(s: string, attr: Attr)
    ensures MethodAnswer(Text(s), attr).TextListAnswer? <==> attr.Rsplit? || attr.Split? || attr.Splitlines?
    ensures MethodAnswer(Text(s), attr).TextTupleAnswer? <==> attr.Partition? || attr.Rpartition?
    ensures MethodAnswer(Text(s), attr).NoSuchMethod? <==>
              || attr.AsIntegerRatio? || attr.BitLength? || attr.Conjugate? || attr.Denominator? || attr.Imag?
              || attr.IsInteger? || attr.Numerator? || attr.Real? || attr.Unsafe?
    ensures !MethodAnswer(Text(s), attr).RatioAnswer?
  {}

  /** Lists and tuples have two methods that answer numbers; numbers have, by their kind,
      those that answer a number and one that answers a pair. */
  lemma MethodsOfOthers(items: seq<Value>, n: Number, attr: Attr)
    ensures MethodAnswer(List(items), attr) == MethodAnswer(Tuple(items), attr) == if attr.Count? || attr.Index? then NumberAnswer else NoSuchMethod
    ensures MethodAnswer(Num(n), attr).NumberAnswer? <==>
              attr.Conjugate? || (attr.BitLength? && (n.Int? || n.Bool?)) || (attr.IsInteger? && !n.Complex?)
    ensures MethodAnswer(Num(n), attr).RatioAnswer? <==> attr.AsIntegerRatio? && !n.Complex?
    ensures MethodAnswer(Num(n), attr).NoSuchMethod? || MethodAnswer(Num(n), attr).NumberAnswer? || MethodAnswer(Num(n), attr).RatioAnswer?
  {}

  /** A method is what an attribute answers where there is one; a number's four parts are
      numbers themselves; and anything else raises. */
  lemma AttributesAnswer(py: Python, v: Value, n: Number, attr: Attr)
    ensures !v.Num? && !MethodAnswer(v, attr).NoSuchMethod? ==> GetAttribute(py, v, attr) == Ok(Method(v, attr))
    ensures !v.Num? && MethodAnswer(v, attr).NoSuchMethod? ==> GetAttribute(py, v, attr).Raised?
    ensures attr.Real? || attr.Imag? || attr.Numerator? || attr.Denominator? ==>
              GetAttribute(py, Num(n), attr) == (match py.part(attr, n) case None => Raised case Some(m) => Ok(Num(m)))
    ensures Sign(py, Not, v) == Ok(Num(Bool(!Truth(v))))
    ensures Sign(py, USub, Num(n)) == (match py.sign(USub, n) case None => Raised case Some(m) => Ok(Num(m)))
  {}

  /** value.index('-') and value[1:value.index('-')] */
  const DASH := Call(Attribute(Name(Other("value")), Index), [Const(TextLit("-"))], [])
  const BEFORE_DASH := Subscript(Name(Other("value")), SliceExpr(Const(NumLit(Int(1))), DASH, Const(NoneLit)))

  lemma DashIsFound(py: Python, env: Params, s: string, dash: nat)
    requires Other("value") in env && env[Other("value")] == Text(s)
    requires py.numericMethod(Text(s), Index, [Text("-")]) == Some(Int(dash))
    ensures Eval(py, DASH, env) == Run(Ok(Num(Int(dash))), false)
  {
    var args := [Const(TextLit("-"))];
    assert args[1..] == [] && EvalAll(py, args[1..], env) == RunAll(Some([]), false);
    assert Eval(py, args[0], env) == Run(Ok(Text("-")), false);
    assert [Text("-")] + [] == [Text("-")];
    assert EvalAll(py, args, env) == RunAll(Some([Text("-")]), false);
    assert Eval(py, Attribute(Name(Other("value")), Index), env) == Run(Ok(Method(Text(s), Index)), false);
  }

  lemma DashIsAccepted(env: Params)
    ensures Accepts(DASH, env)
  {
    assert DASH.args[1..] == [] && AcceptsAll(DASH.args[1..], env);
    assert Accepts(DASH.args[0], env) && Accepts(DASH.func, env);
  }

  lemma BeforeDashIsAccepted(env: Params)
    ensures Accepts(BEFORE_DASH, env)
  {
    DashIsAccepted(env);
    assert Accepts(BEFORE_DASH.index, env);
  }

  lemma SliceIsMade(py: Python, env: Params, dash: nat)
    requires Eval(py, DASH, env) == Run(Ok(Num(Int(dash))), false)
    ensures Eval(py, BEFORE_DASH.index, env) == Run(Ok(Slice(Num(Int(1)), Num(Int(dash)), NoneValue)), false)
  {
    assert Eval(py, BEFORE_DASH.index.lo, env) == Run(Ok(Num(Int(1))), false);
    assert Eval(py, BEFORE_DASH.index.stride, env) == Run(Ok(NoneValue), false);
  }

  /** The form that packages have written since before there was a check - a screw's size,
      "M4-0.7", read as "4" - is accepted and answers what stands between the first
      character and the dash. */
  lemma SizeOfAScrew(py: Python, env: Params, s: string, dash: nat, at: seq<nat>)
    requires Other("value") in env && env[Other("value")] == Text(s)
    requires py.numericMethod(Text(s), Index, [Text("-")]) == Some(Int(dash))
    requires py.positions(|s|, Slice(Num(Int(1)), Num(Int(dash)), NoneValue)) == Some(at)
    ensures Accepts(BEFORE_DASH, env)
    ensures Eval(py, BEFORE_DASH, env) == Run(Ok(Text(PickFrom(s, at))), false)
  {
    BeforeDashIsAccepted(env);
    DashIsFound(py, env, s, dash);
    SliceIsMade(py, env, dash);
    assert Eval(py, Name(Other("value")), env) == Run(Ok(Text(s)), false);
    assert |ElementsOf(Text(s))| == |s|;
  }

  /** What a slice picks, in order. */
  lemma {:induction false} PicksInOrder<T>(s: seq<T>, at: seq<nat>)
    requires forall i | 0 <= i < |at| :: at[i] < |s|
    ensures |PickFrom(s, at)| == |at| && forall i | 0 <= i < |at| :: PickFrom(s, at)[i] == s[at[i]]
  {
    if at != [] { PicksInOrder(s, at[1..]); }
  }
}
