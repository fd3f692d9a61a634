/** The translation in its two stages: `Compile` turns a Rust expression into code, without the
    parameters; `Build` runs the code on them, and gives the tree. */
module SpecificationTranslate {
  import opened Options
  import opened SpecificationSource
  import T = SpecificationTree

  /** A root, the candidate or an item, and the members to follow from it. */
  datatype Place = Place(root: T.Root, names: seq<string>)
  {
    /** This place as it is written inside one more collection, where items count from there. */
    function FurtherIn(): Place {
      Place(if root.Item? then T.Item(root.up + 1) else root, names)
    }

    function Path(): Option<T.Path> {
      if names == [] then None else Some(T.Path(root, names[..|names| - 1], names[|names| - 1]))
    }

    /** The expression the place is; none of the candidate itself. */
    function Code(): Outcome<Code> {
      if names == [] then (if root.Item? then Ok(Itself(root.up)) else Failed)
      else Ok(Field(Path().value))
    }
  }

  /** The `Option` a name bound by a closure unwraps. */
  datatype Held = OfMember(place: Place) | OfOutside(expr: Expr)

  datatype Binding = Binding(name: string, held: Held)

  /** What names stand for: `items` with the nearest last, `held` with the latest last. */
  datatype Scope = Scope(candidate: string, items: seq<string>, held: seq<Binding>, options: seq<string>, receiver: bool)
  {
    /** One more item bound; bindings it shadows are gone, and the others moved outward. */
    function Inside(item: string): Scope {
      Scope(candidate, items + [item], HeldInside(held, item), options, receiver)
    }

    /** One more name bound to the content of an `Option`. */
    function Holding(name: string, what: Held): Scope {
      Scope(candidate, items, held + [Binding(name, what)], options, receiver)
    }

    /** Resolves a name: first among the unwrapped, the latest first, then among the items, the
        nearest first, and then against the candidate. */
    function BaseOf(name: string): Base {
      var binding := Latest(held, name);
      if binding.Some? then
        match binding.value
        case OfMember(place) => HeldMember(place)
        case OfOutside(expr) => HeldOutside(expr)
      else
        var up := StepsOut(items, name);
        if up.Some? then AnItem(up.value)
        else if name == candidate then TheCandidate
        else Other
    }
  }

  function HeldInside(held: seq<Binding>, item: string): seq<Binding> {
    if held == [] then []
    else
      var first := held[0];
      (if first.name == item then []
       else [Binding(first.name, if first.held.OfMember? then OfMember(first.held.place.FurtherIn()) else first.held)])
      + HeldInside(held[1..], item)
  }

  function Latest(held: seq<Binding>, name: string): Option<Held> {
    if held == [] then None
    else if held[|held| - 1].name == name then Some(held[|held| - 1].held)
    else Latest(held[..|held| - 1], name)
  }

  /** How many collections out the nearest item of that name is. */
  function StepsOut(items: seq<string>, name: string): Option<nat> {
    if items == [] then None
    else if items[|items| - 1] == name then Some(0)
    else match StepsOut(items[..|items| - 1], name)
      case None => None
      case Some(up) => Some(up + 1)
  }

  /** What a name resolves to. */
  datatype Base = TheCandidate | AnItem(up: nat) | HeldMember(place: Place) | HeldOutside(expr: Expr) | Other

  datatype Chain = Inexpressible | Elsewhere | Chained(base: string, names: seq<string>)

  /** A name and the members taken of it, in order. A path of several segments has no such
      name, and whatever else is not written as members has no chain. */
  function ChainOf(e: Expr): (r: Chain) {
    match e
    case Wrapped(inner) => ChainOf(inner)
    case Name(name) => Chained(name, [])
    case Constant(_) => Elsewhere
    case Member(base, name) =>
      (match ChainOf(base)
       case Chained(first, names) => Chained(first, names + [name])
       case other => other)
    case _ => Inexpressible
  }

  datatype Placed = NoPlace | OutOfPlace | At(place: Place)

  /** The member that `e` is; out of place, a value from elsewhere. */
  function PlaceOf(e: Expr, scope: Scope): (r: Placed) {
    match ChainOf(e)
    case Inexpressible => NoPlace
    case Elsewhere => OutOfPlace
    case Chained(base, names) =>
      match scope.BaseOf(base)
      case TheCandidate => At(Place(T.Global, names))
      case AnItem(up) => At(Place(T.Item(up), names))
      case HeldMember(place) => At(Place(place.root, place.names + names))
      case _ => OutOfPlace
  }

  /** The expression that stands for `e` in the code. A name bound to a parameter's content is
      replaced by the parameter, so that the code reads the `Option` and finds the null in it. */
  function Outside(e: Expr, scope: Scope): (r: Outcome<Expr>) {
    match ChainOf(e)
    case Inexpressible => Failed
    case Elsewhere => Ok(e)
    case Chained(base, names) =>
      match scope.BaseOf(base)
      case HeldOutside(option) => if names == [] then Ok(option) else Failed
      case _ => Ok(e)
  }

  /** Whether `e` is seen to be an `Option`. */
  predicate IsSeenOption(e: Expr, scope: Scope) {
    match e
    case Wrapped(inner) => IsSeenOption(inner, scope)
    case Kept(inner) => IsSeenOption(inner, scope)
    case SomeOf(_) => true
    case NoneLiteral => true
    case Name(name) => scope.BaseOf(name).Other? && name in scope.options
    case _ => false
  }

  /** The code of the tree function. Equalities go through the null test, which looks at their
      operands once the parameters are known. */
  datatype Code =
    | Constant(value: Value)
    | OutsideValue(expr: Expr)
    | Field(path: T.Path)
    | Itself(up: nat)
    | Not(inner: Code)
    | Neg(inner: Code)
    | And(left: Code, right: Code)
    | Or(left: Code, right: Code)
    | Equal(left: Code, right: Code)
    | NotEqual(left: Code, right: Code)
    | Order(op: Comparison, left: Code, right: Code)
    | Compute(operation: Arithmetic, left: Code, right: Code)
    | IsNull(inner: Code)
    | IsNotNull(inner: Code)
    | Any(source: T.Path, condition: Code)
    | All(source: T.Path, condition: Code)

  function StripKept(e: Expr): Expr {
    if e.Kept? then StripKept(e.inner) else e
  }

  /** What an `Option` asked for what it holds is, and the code of it. */
  function HeldOf(option: Expr, scope: Scope): (r: Outcome<(Held, Code)>) {
    var e := StripKept(option);
    match PlaceOf(e, scope)
    case NoPlace => Failed
    case At(place) => (match place.Code() case Ok(code) => Ok((OfMember(place), code)) case Failed => Failed)
    case OutOfPlace =>
      if !ChainOf(e).Chained? then Failed
      else match Outside(e, scope) case Ok(outside) => Ok((OfOutside(outside), OutsideValue(outside))) case Failed => Failed
  }

  /** The path of a collection. */
  function SourceOf(e: Expr, scope: Scope): (r: Outcome<T.Path>) {
    match PlaceOf(e, scope)
    case At(place) => if place.names == [] then Failed else Ok(place.Path().value)
    case _ => Failed
  }

  /** A name no function has: the element of the collection a `contains` asks. */
  const UNNAMED := "__specification_element"

  predicate IsOrder(op: Comparison) {
    !op.Eq? && !op.Ne?
  }

  /** A member, an item or a value from outside. */
  function NameCode(e: Expr, scope: Scope): (r: Outcome<Code>) {
    match PlaceOf(e, scope)
    case NoPlace => Failed
    case At(place) => place.Code()
    case OutOfPlace =>
      if scope.receiver && ChainOf(e) == Chained("self", []) then Failed
      else match Outside(e, scope) case Ok(outside) => Ok(OutsideValue(outside)) case Failed => Failed
  }

  /** The first stage, by the form of `e`; what has no form here is refused. */
  function Compile(e: Expr, scope: Scope): (r: Outcome<Code>) {
    match e
    case Literal(value) => if value.Null? then Failed else Ok(Code.Constant(value))
    case NoneLiteral => Ok(Code.Constant(Null))
    case SomeOf(inner) => Compile(inner, scope)
    case Name(_) => NameCode(e, scope)
    case Constant(_) => NameCode(e, scope)
    case Member(_, _) => NameCode(e, scope)
    case Wrapped(inner) => Compile(inner, scope)
    case Block(inner) => Compile(inner, scope)
    case Kept(inner) => Compile(inner, scope)
    case Not(inner) => (match Compile(inner, scope) case Ok(c) => Ok(Code.Not(c)) case Failed => Failed)
    case Neg(inner) =>
      // a negative literal is one constant
      if inner.Literal? && inner.value.Int? then Ok(Code.Constant(Int(-inner.value.number)))
      else (match Compile(inner, scope) case Ok(c) => Ok(Code.Neg(c)) case Failed => Failed)
    case And(left, right) =>
      (match (Compile(left, scope), Compile(right, scope)) case (Ok(l), Ok(r)) => Ok(Code.And(l, r)) case _ => Failed)
    case Or(left, right) =>
      (match (Compile(left, scope), Compile(right, scope)) case (Ok(l), Ok(r)) => Ok(Code.Or(l, r)) case _ => Failed)
    case Compare(op, left, right) =>
      if IsOrder(op) && (IsSeenOption(left, scope) || IsSeenOption(right, scope)) then Failed
      else (match (Compile(left, scope), Compile(right, scope))
            case (Ok(l), Ok(r)) => Ok(if op.Eq? then Equal(l, r) else if op.Ne? then NotEqual(l, r) else Order(op, l, r))
            case _ => Failed)
    case Compute(op, left, right) =>
      (match (Compile(left, scope), Compile(right, scope)) case (Ok(l), Ok(r)) => Ok(Code.Compute(op, l, r)) case _ => Failed)
    case IsNone(inner) => (match Compile(inner, scope) case Ok(c) => Ok(IsNull(c)) case Failed => Failed)
    case IsSome(inner) => (match Compile(inner, scope) case Ok(c) => Ok(IsNotNull(c)) case Failed => Failed)
    case Quantified(quantifier, _, collection, item, body) =>
      (match (SourceOf(collection, scope), Compile(body, scope.Inside(item)))
       case (Ok(source), Ok(c)) => Ok(if quantifier.Any? then Code.Any(source, c) else Code.All(source, c))
       case _ => Failed)
    case Contains(collection, element) =>
      // the element is compared inside the collection, under a name that binds nothing
      (match (SourceOf(collection, scope), Compile(element, scope.Inside(UNNAMED)))
       case (Ok(source), Ok(c)) => Ok(Code.Any(source, Equal(Itself(0), c)))
       case _ => Failed)
    case IsSomeAnd(option, name, body) =>
      (match HeldOf(option, scope)
       case Failed => Failed
       case Ok(held) =>
         match Compile(body, scope.Holding(name, held.0))
         case Ok(c) => Ok(Code.And(IsNotNull(held.1), c))
         case Failed => Failed)
    case IsNoneOr(option, name, body) =>
      (match HeldOf(option, scope)
       case Failed => Failed
       case Ok(held) =>
         match Compile(body, scope.Holding(name, held.0))
         case Ok(c) => Ok(Code.Or(IsNull(held.1), c))
         case Failed => Failed)
  }

  // The tree function, called with the parameters.

  /** `x == None` is a test of `x`; of two constants that are none the left is tested. */
  function NullTest(op: Comparison, left: T.Tree, right: T.Tree): T.Tree {
    var test := (t: T.Tree) => if op.Eq? then T.IsNull(t) else T.IsNotNull(t);
    if right == T.Tree.Constant(Null) then test(left)
    else if left == T.Tree.Constant(Null) then test(right)
    else T.Tree.Compare(op, left, right)
  }

  function Build(c: Code, parameters: map<string, Data>, constants: map<seq<string>, Data>): (r: Outcome<T.Tree>) {
    match c
    case Constant(value) => Ok(T.Tree.Constant(value))
    case OutsideValue(e) =>
      (match Eval(e, parameters, constants)
       case Ok(d) => (match T.ValueOf(d) case Ok(v) => Ok(T.Tree.Constant(v)) case Failed => Failed)
       case Failed => Failed)
    case Field(path) => Ok(T.Field(path))
    case Itself(up) => Ok(T.Itself(up))
    case Not(inner) => (match Build(inner, parameters, constants) case Ok(t) => Ok(T.Tree.Not(t)) case Failed => Failed)
    case Neg(inner) => (match Build(inner, parameters, constants) case Ok(t) => Ok(T.Tree.Neg(t)) case Failed => Failed)
    case IsNull(inner) => (match Build(inner, parameters, constants) case Ok(t) => Ok(T.IsNull(t)) case Failed => Failed)
    case IsNotNull(inner) => (match Build(inner, parameters, constants) case Ok(t) => Ok(T.IsNotNull(t)) case Failed => Failed)
    case Any(source, condition) =>
      (match Build(condition, parameters, constants) case Ok(t) => Ok(T.Tree.Any(source, t)) case Failed => Failed)
    case All(source, condition) =>
      (match Build(condition, parameters, constants)
       case Ok(t) => Ok(T.Tree.Not(T.Tree.Any(source, T.Tree.Not(t)))) case Failed => Failed)
    case _ =>
      match (Build(c.left, parameters, constants), Build(c.right, parameters, constants))
      case (Ok(l), Ok(r)) => Ok(Joined(c, l, r))
      case _ => Failed
  }

  function Joined(c: Code, l: T.Tree, r: T.Tree): T.Tree
    requires c.And? || c.Or? || c.Equal? || c.NotEqual? || c.Order? || c.Compute?
  {
    match c
    case And(_, _) => T.Tree.And(l, r)
    case Or(_, _) => T.Tree.Or(l, r)
    case Equal(_, _) => NullTest(Eq, l, r)
    case NotEqual(_, _) => NullTest(Ne, l, r)
    case Order(op, _, _) => T.Tree.Compare(op, l, r)
    case Compute(op, _, _) => T.Tree.Compute(op, l, r)
  }
}
