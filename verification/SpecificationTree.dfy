/** The tree a specification is, and the evaluator that reads it in memory, in three-valued
    logic. */
module SpecificationTree {
  import opened Options
  import opened SpecificationSource

  /** Where a path starts: at the candidate, or at the item so many collections out. */
  datatype Root = Global | Item(up: nat)

  /** A member reached through nested objects. */
  datatype Path = Path(root: Root, objects: seq<string>, name: string)

  datatype Tree =
    | Constant(value: Value)
    | Field(path: Path)
    | Itself(up: nat)
    | Not(inner: Tree)
    | Neg(inner: Tree)
    | And(left: Tree, right: Tree)
    | Or(left: Tree, right: Tree)
    | Compare(op: Comparison, left: Tree, right: Tree)
    | Compute(operation: Arithmetic, left: Tree, right: Tree)
    | IsNull(inner: Tree)
    | IsNotNull(inner: Tree)
    | Any(source: Path, condition: Tree)

  /** The value of a member, where it has one: a none is null, and an object is no value. */
  function ValueOf(d: Data): (r: Outcome<Value>) {
    match d
    case Scalar(value) => Ok(value)
    case Opt(held) => if held.Some? then ValueOf(held.value) else Ok(Null)
    case _ => Failed
  }

  /** The object a member is, or its `Option` holds. */
  function ObjectOf(d: Data): (r: Outcome<map<string, Data>>) {
    match d
    case Object(fields) => Ok(fields)
    case Opt(held) => if held.Some? then ObjectOf(held.value) else Failed
    case _ => Failed
  }

  /** What the roots stand for: the candidate, and the items of the enclosing collections,
      nearest first. */
  datatype Scope = Scope(candidate: Data, items: seq<Data>)
  {
    function RootOf(root: Root): Outcome<Data> {
      match root
      case Global => Ok(candidate)
      case Item(up) => if up < |items| then Ok(items[up]) else Failed
    }

    function Inside(item: Data): Scope {
      Scope(candidate, [item] + items)
    }
  }

  /** The object the names lead to. */
  function Walk(d: Data, names: seq<string>): (r: Outcome<map<string, Data>>)
    decreases |names|
  {
    match ObjectOf(d)
    case Failed => Failed
    case Ok(fields) =>
      if names == [] then Ok(fields)
      else if names[0] in fields then Walk(fields[names[0]], names[1..])
      else Failed
  }

  /** The member a path names. */
  function MemberOf(path: Path, scope: Scope): (r: Outcome<Data>) {
    match scope.RootOf(path.root)
    case Failed => Failed
    case Ok(d) =>
      match Walk(d, path.objects)
      case Ok(fields) => if path.name in fields then Ok(fields[path.name]) else Failed
      case Failed => Failed
  }

  /** True, false, or unknown. */
  function TruthOf(v: Value): Outcome<Option<bool>> {
    match v
    case Null => Ok(None)
    case Bool(b) => Ok(Some(b))
    case _ => Failed
  }

  function FromTruth(t: Option<bool>): Value {
    match t case None => Null case Some(b) => Bool(b)
  }

  /** Three-valued `AND` and `OR`, `deciding` being the value that settles the result. */
  function Connective(deciding: bool, left: Option<bool>, right: Option<bool>): Option<bool> {
    if left == Some(deciding) || right == Some(deciding) then Some(deciding)
    else if left.Some? && right.Some? then Some(!deciding)
    else None
  }

  function Evaluate(t: Tree, scope: Scope): (r: Outcome<Value>)
    decreases t, 3
  {
    match t
    case Constant(value) => Ok(value)
    case Field(path) => (match MemberOf(path, scope) case Ok(d) => ValueOf(d) case Failed => Failed)
    case Itself(up) => if up < |scope.items| && !scope.items[up].Object? then ValueOf(scope.items[up]) else Failed
    case Not(inner) =>
      (match Evaluate(inner, scope)
       case Failed => Failed
       case Ok(v) =>
         match TruthOf(v)
         case Ok(Some(b)) => Ok(Bool(!b))
         case Ok(None) => Ok(Null)
         case Failed => Failed)
    case Neg(inner) =>
      (match Evaluate(inner, scope)
       case Ok(Null) => Ok(Null)
       case Ok(Int(n)) => if InRange(-n) then Ok(Int(-n)) else Failed
       case _ => Failed)
    case And(_, _) => Connected(t, scope)
    case Or(_, _) => Connected(t, scope)
    case Compare(op, left, right) =>
      (match (Evaluate(left, scope), Evaluate(right, scope))
       case (Ok(a), Ok(b)) =>
         if a.Null? || b.Null? then Ok(Null)
         else if SameKind(a, b) then Ok(Bool(Compared(op, a, b)))
         else Failed
       case _ => Failed)
    case Compute(op, left, right) =>
      (match (Evaluate(left, scope), Evaluate(right, scope))
       case (Ok(Int(a)), Ok(Int(b))) =>
         // the least integer by minus one leaves nothing over, as on the server
         if op.Rem? && b == -1 then Ok(Int(0))
         else (match Computed(op, a, b) case Ok(n) => Ok(Int(n)) case Failed => Failed)
       case (Ok(a), Ok(b)) => if a.Null? || b.Null? then Ok(Null) else Failed
       case _ => Failed)
    case IsNull(inner) => (match Nullness(inner, scope) case Ok(b) => Ok(Bool(b)) case Failed => Failed)
    case IsNotNull(inner) => (match Nullness(inner, scope) case Ok(b) => Ok(Bool(!b)) case Failed => Failed)
    case Any(source, condition) =>
      (match MemberOf(source, scope)
       case Ok(List(items)) => SomeItem(items, condition, scope)
       case _ => Failed)
  }

  /** The right side is not read once the left has decided. */
  function Connected(t: Tree, scope: Scope): (r: Outcome<Value>)
    requires t.And? || t.Or?
    decreases t, 2
  {
    var deciding := t.Or?;
    match Evaluate(t.left, scope)
    case Failed => Failed
    case Ok(l) =>
      match TruthOf(l)
      case Failed => Failed
      case Ok(known) =>
        if known == Some(deciding) then Ok(Bool(deciding))
        else match Evaluate(t.right, scope)
          case Failed => Failed
          case Ok(r) =>
            match TruthOf(r)
            case Failed => Failed
            case Ok(other) => Ok(FromTruth(Connective(deciding, known, other)))
  }

  /** Whether the operand is null. Of a member that holds an object there is an answer too: no. */
  function Nullness(t: Tree, scope: Scope): (r: Outcome<bool>)
    decreases t, 4
  {
    if t.Field? then
      match MemberOf(t.path, scope)
      case Failed => Failed
      case Ok(d) =>
        match ValueOf(d)
        case Ok(v) => Ok(v.Null?)
        case Failed => if ObjectOf(d).Ok? then Ok(false) else Failed
    else
      match Evaluate(t, scope)
      case Ok(v) => Ok(v.Null?)
      case Failed => Failed
  }

  /** Stops at the first witness; an item of which the predicate is unknown is none. */
  function SomeItem(items: seq<Data>, condition: Tree, scope: Scope): (r: Outcome<Value>)
    decreases condition, 5 + |items|
  {
    if items == [] then Ok(Bool(false))
    else match Evaluate(condition, scope.Inside(items[0]))
      case Failed => Failed
      case Ok(v) =>
        match TruthOf(v)
        case Failed => Failed
        case Ok(truth) => if truth == Some(true) then Ok(Bool(true)) else SomeItem(items[1..], condition, scope)
  }

  /** Whether the candidate satisfies the specification: false and null both say no. */
  function IsSatisfiedBy(t: Tree, candidate: Data): (r: Outcome<bool>) {
    match Evaluate(t, Scope(candidate, []))
    case Failed => Failed
    case Ok(v) => (match TruthOf(v) case Ok(truth) => Ok(truth == Some(true)) case Failed => Failed)
  }
}
