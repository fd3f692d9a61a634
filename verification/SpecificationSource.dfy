/** The predicates a specification is written as: Rust expressions over a candidate and
    parameters, what they mean in Rust, and the types the translation relies on. */
module SpecificationSource {
  import opened Options

  /** A value of the tree and of the storage. */
  datatype Value = Null | Bool(truth: bool) | Int(number: int) | Text(text: string)

  /** Data of a candidate or a parameter. */
  datatype Data = Scalar(value: Value) | Opt(held: Option<Data>) | Object(fields: map<string, Data>) | List(items: seq<Data>)

  datatype Comparison = Eq | Ne | Lt | Le | Gt | Ge

  datatype Arithmetic = Add | Sub | Mul | Div | Rem

  datatype Quantifier = Any | All

  /** The operators a comparison is written with, and their method forms, are one. `Wrapped` is
      a parenthesis, a group, a reference or a dereference; `Kept` a `clone()`, `as_str()`,
      `as_ref()` or `as_deref()`; `Constant` a path of several segments. */
  datatype Expr =
    | Literal(value: Value)
    | NoneLiteral
    | SomeOf(inner: Expr)
    | Name(name: string)
    | Constant(path: seq<string>)
    | Member(base: Expr, member: string)
    | Wrapped(inner: Expr)
    | Block(inner: Expr)
    | Kept(inner: Expr)
    | Not(inner: Expr)
    | Neg(inner: Expr)
    | And(left: Expr, right: Expr)
    | Or(left: Expr, right: Expr)
    | Compare(op: Comparison, left: Expr, right: Expr)
    | Compute(operation: Arithmetic, left: Expr, right: Expr)
    | IsNone(inner: Expr)
    | IsSome(inner: Expr)
    | Quantified(quantifier: Quantifier, iter: bool, collection: Expr, item: string, body: Expr)
    | Contains(collection: Expr, element: Expr)
    | IsSomeAnd(option: Expr, holding: string, body: Expr)
    | IsNoneOr(option: Expr, holding: string, body: Expr)

  datatype Outcome<+T> = Ok(value: T) | Failed

  const MAX := 0x7fff_ffff_ffff_ffff
  const MIN := -0x8000_0000_0000_0000

  predicate InRange(n: int) {
    MIN <= n <= MAX
  }

  function TruncatedQuotient(a: int, b: int): int
    requires b != 0
  {
    var q := (if a < 0 then -a else a) / (if b < 0 then -b else b);
    if (a < 0) == (b < 0) then q else -q
  }

  /** Integer arithmetic, checked: an overflow and a division by zero have no value. */
  function Computed(op: Arithmetic, a: int, b: int): (r: Outcome<int>) {
    if op.Div? || op.Rem? then
      if b == 0 || !InRange(TruncatedQuotient(a, b)) then Failed
      else Ok(if op.Div? then TruncatedQuotient(a, b) else a - b * TruncatedQuotient(a, b))
    else
      var r := if op.Add? then a + b else if op.Sub? then a - b else a * b;
      if InRange(r) then Ok(r) else Failed
  }

  predicate TextBefore(a: string, b: string) {
    if b == [] then false
    else if a == [] then true
    else a[0] < b[0] || (a[0] == b[0] && TextBefore(a[1..], b[1..]))
  }

  predicate SameKind(a: Value, b: Value) {
    (a.Bool? && b.Bool?) || (a.Int? && b.Int?) || (a.Text? && b.Text?)
  }

  predicate Before(a: Value, b: Value)
    requires SameKind(a, b)
  {
    match (a, b)
    case (Bool(x), Bool(y)) => !x && y
    case (Int(x), Int(y)) => x < y
    case (Text(x), Text(y)) => TextBefore(x, y)
  }

  predicate Compared(op: Comparison, a: Value, b: Value)
    requires SameKind(a, b)
  {
    match op
    case Eq => a == b
    case Ne => a != b
    case Lt => Before(a, b)
    case Le => a == b || Before(a, b)
    case Gt => Before(b, a)
    case Ge => a == b || Before(b, a)
  }

  function Truth(b: bool): Outcome<Data> {
    Ok(Scalar(Bool(b)))
  }

  /** `==` and the orderings of Rust: of values of one kind, and of `Option`s of them. */
  function CompareData(op: Comparison, a: Data, b: Data): Outcome<Data> {
    if a.Scalar? && b.Scalar? && SameKind(a.value, b.value) then Truth(Compared(op, a.value, b.value))
    else if a.Opt? && b.Opt? && op.Eq? then Truth(a == b)
    else if a.Opt? && b.Opt? && op.Ne? then Truth(a != b)
    else if a.Opt? && b.Opt? then OrderOptions(op, a.held, b.held)
    else Failed
  }

  /** An ordering of `Option`s: a none is below whatever is held. */
  function OrderOptions(op: Comparison, a: Option<Data>, b: Option<Data>): Outcome<Data> {
    match (a, b)
    case (Some(x), Some(y)) =>
      if x.Scalar? && y.Scalar? && SameKind(x.value, y.value) then Truth(Compared(op, x.value, y.value)) else Failed
    case (None, None) => Truth(op.Le? || op.Ge?)
    case (None, Some(_)) => Truth(op.Lt? || op.Le?)
    case (Some(_), None) => Truth(op.Gt? || op.Ge?)
  }

  function FieldOf(d: Data, name: string): Outcome<Data> {
    if d.Object? && name in d.fields then Ok(d.fields[name]) else Failed
  }

  /** The value of an expression where the names in scope stand for `env`. */
  function Eval(e: Expr, env: map<string, Data>, constants: map<seq<string>, Data>): (r: Outcome<Data>)
    decreases e, 0
  {
    match e
    case Literal(value) => if value.Null? || (value.Int? && !(0 <= value.number <= MAX)) then Failed else Ok(Scalar(value))
    case NoneLiteral => Ok(Opt(None))
    case SomeOf(inner) =>
      (match Eval(inner, env, constants) case Ok(d) => Ok(Opt(Some(d))) case Failed => Failed)
    case Name(name) => if name in env then Ok(env[name]) else Failed
    case Constant(path) => if path in constants then Ok(constants[path]) else Failed
    case Member(base, name) =>
      (match Eval(base, env, constants) case Ok(d) => FieldOf(d, name) case Failed => Failed)
    case Wrapped(inner) => Eval(inner, env, constants)
    case Block(inner) => Eval(inner, env, constants)
    case Kept(inner) => Eval(inner, env, constants)
    case Not(inner) =>
      (match Eval(inner, env, constants)
       case Ok(Scalar(Bool(b))) => Truth(!b)
       case _ => Failed)
    case Neg(inner) =>
      if inner.Literal? && inner.value.Int? then
        if 0 <= inner.value.number && InRange(-inner.value.number) then Ok(Scalar(Int(-inner.value.number))) else Failed
      else
        (match Eval(inner, env, constants)
         case Ok(Scalar(Int(n))) => if InRange(-n) then Ok(Scalar(Int(-n))) else Failed
         case _ => Failed)
    case And(left, right) =>
      (match Eval(left, env, constants)
       case Ok(Scalar(Bool(b))) => if b then Eval(right, env, constants) else Truth(false)
       case _ => Failed)
    case Or(left, right) =>
      (match Eval(left, env, constants)
       case Ok(Scalar(Bool(b))) => if b then Truth(true) else Eval(right, env, constants)
       case _ => Failed)
    case Compare(op, left, right) =>
      (match (Eval(left, env, constants), Eval(right, env, constants))
       case (Ok(a), Ok(b)) => CompareData(op, a, b)
       case _ => Failed)
    case Compute(op, left, right) =>
      (match (Eval(left, env, constants), Eval(right, env, constants))
       case (Ok(Scalar(Int(a))), Ok(Scalar(Int(b)))) =>
         (match Computed(op, a, b) case Ok(n) => Ok(Scalar(Int(n))) case Failed => Failed)
       case _ => Failed)
    case IsNone(inner) =>
      (match Eval(inner, env, constants) case Ok(Opt(held)) => Truth(held.None?) case _ => Failed)
    case IsSome(inner) =>
      (match Eval(inner, env, constants) case Ok(Opt(held)) => Truth(held.Some?) case _ => Failed)
    case Quantified(quantifier, _, collection, item, body) =>
      (match Eval(collection, env, constants)
       case Ok(List(items)) => EvalItems(quantifier, items, item, body, env, constants)
       case _ => Failed)
    case Contains(collection, element) =>
      (match (Eval(collection, env, constants), Eval(element, env, constants))
       case (Ok(List(items)), Ok(d)) => EvalContains(items, d)
       case _ => Failed)
    case IsSomeAnd(option, name, body) =>
      (match Eval(option, env, constants)
       case Ok(Opt(None)) => Truth(false)
       case Ok(Opt(Some(d))) => Eval(body, env[name := d], constants)
       case _ => Failed)
    case IsNoneOr(option, name, body) =>
      (match Eval(option, env, constants)
       case Ok(Opt(None)) => Truth(true)
       case Ok(Opt(Some(d))) => Eval(body, env[name := d], constants)
       case _ => Failed)
  }

  /** `any` stops at its first witness, `all` at the first item that fails. */
  function EvalItems(quantifier: Quantifier, items: seq<Data>, item: string, body: Expr, env: map<string, Data>,
                     constants: map<seq<string>, Data>): (r: Outcome<Data>)
    decreases body, 1 + |items|
  {
    if items == [] then Truth(quantifier.All?)
    else match Eval(body, env[item := items[0]], constants)
      case Ok(Scalar(Bool(b))) =>
        if b == quantifier.Any? then Truth(b) else EvalItems(quantifier, items[1..], item, body, env, constants)
      case _ => Failed
  }

  /** Some element equals `d`. */
  function EvalContains(items: seq<Data>, d: Data): (r: Outcome<Data>) {
    if items == [] then Truth(false)
    else match CompareData(Eq, items[0], d)
      case Ok(Scalar(Bool(b))) => if b then Truth(true) else EvalContains(items[1..], d)
      case _ => Failed
  }

  // Types.

  /** What is known of an `Option` at a call: whether it is none, or holds something. */
  datatype Sure = Unsure | ThatNone | ThatSome

  datatype Type = TBool | TInt | TText | TOption(of: Type, sure: Sure) | TObject(members: map<string, Type>) | TList(of: Type)
  {
    predicate IsScalar() {
      TBool? || TInt? || TText?
    }

    /** A value of the tree: a scalar, or an `Option` of one. */
    predicate IsValue() {
      IsScalar() || (TOption? && of.IsScalar())
    }

    /** What a candidate's members may be: nothing of it is known to be none. */
    predicate Fine() {
      match this
      case TOption(t, sure) => !sure.ThatNone? && (t.IsScalar() || (t.TObject? && t.Fine()))
      case TList(t) => (t.IsValue() || t.TObject?) && t.Fine()
      case TObject(ms) => forall m | m in ms :: ms[m].Fine()
      case _ => true
    }

    /** What a specification's parameters may be, and the members of those: some are none. */
    predicate Known() {
      match this
      case TOption(t, _) => t.IsScalar() || (t.TObject? && t.Fine())
      case TObject(ms) => forall m | m in ms :: ms[m].Known()
      case _ => Fine()
    }
  }

  predicate HasType(d: Data, t: Type)
    decreases d
  {
    match t
    case TBool => d.Scalar? && d.value.Bool?
    case TInt => d.Scalar? && d.value.Int? && InRange(d.value.number)
    case TText => d.Scalar? && d.value.Text?
    case TOption(of, sure) =>
      d.Opt? && (d.held.Some? ==> HasType(d.held.value, of)) && (sure.ThatNone? ==> d.held.None?) && (sure.ThatSome? ==> d.held.Some?)
    case TObject(ms) => d.Object? && forall m | m in ms :: m in d.fields && HasType(d.fields[m], ms[m])
    case TList(of) => d.List? && forall i | 0 <= i < |d.items| :: HasType(d.items[i], of)
  }

  /** The constant `None`, however it is wrapped. */
  predicate IsNothing(e: Expr) {
    match e
    case NoneLiteral => true
    case Wrapped(inner) => IsNothing(inner)
    case Block(inner) => IsNothing(inner)
    case Kept(inner) => IsNothing(inner)
    case _ => false
  }

  /** Two `Option`s whose equality the tree can tell: one is known to be none, or both to hold
      something. */
  predicate CanTell(l: Option<Type>, r: Option<Type>) {
    && IsOption(l) && IsOption(r) && l.value.of == r.value.of && l.value.of.IsScalar()
    && (l.value.sure.ThatNone? || r.value.sure.ThatNone? || (l.value.sure.ThatSome? && r.value.sure.ThatSome?))
  }

  /** The type of an expression whose comparisons are of values that are not optional, tests of
      an `Option` against the constant `None`, or equalities of `Option`s that can be told. */
  function TypeOf(e: Expr, types: map<string, Type>, constants: map<seq<string>, Type>): (t: Option<Type>)
    decreases e, 0
  {
    match e
    case Literal(value) =>
      (match value case Bool(_) => Some(TBool) case Int(_) => Some(TInt) case Text(_) => Some(TText) case Null => None)
    case NoneLiteral => None
    case SomeOf(inner) =>
      (match TypeOf(inner, types, constants)
       case Some(t) => if t.IsScalar() then Some(TOption(t, ThatSome)) else None
       case None => None)
    case Name(name) => if name in types then Some(types[name]) else None
    case Constant(path) => if path in constants then Some(constants[path]) else None
    case Member(base, name) =>
      (match TypeOf(base, types, constants)
       case Some(TObject(ms)) => if name in ms then Some(ms[name]) else None
       case _ => None)
    case Wrapped(inner) => TypeOf(inner, types, constants)
    case Block(inner) => TypeOf(inner, types, constants)
    case Kept(inner) => TypeOf(inner, types, constants)
    case Not(inner) => if TypeOf(inner, types, constants) == Some(TBool) then Some(TBool) else None
    case Neg(inner) => if TypeOf(inner, types, constants) == Some(TInt) then Some(TInt) else None
    case And(left, right) => BothBool(TypeOf(left, types, constants), TypeOf(right, types, constants))
    case Or(left, right) => BothBool(TypeOf(left, types, constants), TypeOf(right, types, constants))
    case Compare(op, left, right) =>
      var l, r := TypeOf(left, types, constants), TypeOf(right, types, constants);
      if IsNothing(left) || IsNothing(right) then
        if (op.Eq? || op.Ne?) && (IsNothing(left) || IsOption(l)) && (IsNothing(right) || IsOption(r)) then Some(TBool) else None
      else if l.Some? && l.value.IsScalar() && l == r then Some(TBool)
      else if (op.Eq? || op.Ne?) && CanTell(l, r) then Some(TBool)
      else None
    case Compute(_, left, right) =>
      if TypeOf(left, types, constants) == Some(TInt) && TypeOf(right, types, constants) == Some(TInt)
      then Some(TInt) else None
    case IsNone(inner) => if IsNothing(inner) || IsOption(TypeOf(inner, types, constants)) then Some(TBool) else None
    case IsSome(inner) => if IsNothing(inner) || IsOption(TypeOf(inner, types, constants)) then Some(TBool) else None
    case Quantified(_, _, collection, item, body) =>
      (match TypeOf(collection, types, constants)
       case Some(TList(of)) =>
         if TypeOf(body, types[item := of], constants) == Some(TBool) then Some(TBool) else None
       case _ => None)
    case Contains(collection, element) =>
      (match TypeOf(collection, types, constants)
       case Some(TList(of)) =>
         if of.IsScalar() && TypeOf(element, types, constants) == Some(of) then Some(TBool)
         else if of.TOption? && IsNothing(element) then Some(TBool)
         else if CanTell(Some(of), TypeOf(element, types, constants)) then Some(TBool)
         else None
       case _ => None)
    case IsSomeAnd(option, name, body) => HeldType(TypeOf(option, types, constants), name, body, types, constants)
    case IsNoneOr(option, name, body) => HeldType(TypeOf(option, types, constants), name, body, types, constants)
  }

  function HeldType(option: Option<Type>, name: string, body: Expr, types: map<string, Type>,
                    constants: map<seq<string>, Type>): Option<Type>
    decreases body, 1
  {
    if IsOption(option) && TypeOf(body, types[name := option.value.of], constants) == Some(TBool)
    then Some(TBool) else None
  }

  function BothBool(l: Option<Type>, r: Option<Type>): Option<Type> {
    if l == Some(TBool) && r == Some(TBool) then Some(TBool) else None
  }

  predicate IsOption(t: Option<Type>) {
    t.Some? && t.value.TOption?
  }
}
