/** Translation preserves meaning: the tree, read in three-valued logic, is never null and is
    what the predicate is in Rust, for every candidate and every parameter. */
module SpecificationMeaning {
  import opened Options
  import opened SpecificationSource
  import opened SpecificationTranslate
  import opened SpecificationScoping
  import T = SpecificationTree

  /** The tree is what `d` of type `t` is: its value; and of an `Option`, null as it is none. */
  ghost predicate Means(tree: T.Tree, d: Data, t: Type, reading: T.Scope) {
    && (t.IsValue() ==> T.ValueOf(d).Ok? && T.Evaluate(tree, reading) == T.ValueOf(d))
    && (t.TOption? ==> T.Nullness(tree, reading) == Ok(d.Opt? && d.held.None?))
  }

  /** No closure of `e` gives the name that the element of a `contains` is kept under. */
  predicate Avoids(e: Expr) {
    match e
    case Literal(_) => true
    case NoneLiteral => true
    case Name(_) => true
    case Constant(_) => true
    case SomeOf(inner) => Avoids(inner)
    case Member(base, _) => Avoids(base)
    case Wrapped(inner) => Avoids(inner)
    case Block(inner) => Avoids(inner)
    case Kept(inner) => Avoids(inner)
    case Not(inner) => Avoids(inner)
    case Neg(inner) => Avoids(inner)
    case And(left, right) => Avoids(left) && Avoids(right)
    case Or(left, right) => Avoids(left) && Avoids(right)
    case Compare(_, left, right) => Avoids(left) && Avoids(right)
    case Compute(_, left, right) => Avoids(left) && Avoids(right)
    case IsNone(inner) => Avoids(inner)
    case IsSome(inner) => Avoids(inner)
    case Quantified(_, _, collection, item, body) => item != UNNAMED && Avoids(collection) && Avoids(body)
    case Contains(collection, element) => Avoids(collection) && Avoids(element)
    case IsSomeAnd(option, name, body) => name != UNNAMED && Avoids(option) && Avoids(body)
    case IsNoneOr(option, name, body) => name != UNNAMED && Avoids(option) && Avoids(body)
  }

  ghost predicate WellTyped(env: map<string, Data>, types: map<string, Type>, call: Call) {
    call.Conforms() && forall name :: name in types ==> name in env && HasType(env[name], types[name]) && types[name].Known()
  }

  /** Whatever has nothing known to be none is known well enough. */
  lemma {:induction false} FineIsKnown(t: Type)
    requires t.Fine()
    ensures t.Known()
  {
    match t
    case TObject(ms) =>
      forall m | m in ms
        ensures ms[m].Known()
      {
        FineIsKnown(ms[m]);
      }
    case _ =>
  }

  lemma RemainderFits(op: Arithmetic, a: int, b: int)
    requires Computed(op, a, b).Ok?
    ensures InRange(a) && InRange(b) ==> InRange(Computed(op, a, b).value)
  {
    if op.Rem? {
      var x, y := if a < 0 then -a else a, if b < 0 then -b else b;
      assert x == y * (x / y) + x % y;
      assert b * TruncatedQuotient(a, b) == (if a < 0 then -(y * (x / y)) else y * (x / y));
    }
  }

  /** What has a type evaluates to data of it, if to any. */
  lemma {:induction false} Typed(e: Expr, env: map<string, Data>, types: map<string, Type>, call: Call)
    requires WellTyped(env, types, call)
    requires TypeOf(e, types, call.types).Some? && Eval(e, env, call.constants).Ok?
    ensures var t := TypeOf(e, types, call.types).value; HasType(Eval(e, env, call.constants).value, t) && t.Known()
    decreases e, 2
  {
    match e
    case Member(base, _) => Typed(base, env, types, call);
    case SomeOf(inner) => Typed(inner, env, types, call);
    case Wrapped(inner) => Typed(inner, env, types, call);
    case Block(inner) => Typed(inner, env, types, call);
    case Kept(inner) => Typed(inner, env, types, call);
    case Neg(_) =>
    case Compute(_, _, _) => NumberTyped(e, env, types, call);
    case Literal(_) =>
    case NoneLiteral =>
    case Name(_) =>
    case Constant(_) =>
    case _ => TruthTyped(e, env, types, call);
  }

  lemma NumberTyped(e: Expr, env: map<string, Data>, types: map<string, Type>, call: Call)
    requires WellTyped(env, types, call) && e.Compute?
    requires TypeOf(e, types, call.types).Some? && Eval(e, env, call.constants).Ok?
    ensures TypeOf(e, types, call.types).value == TInt && HasType(Eval(e, env, call.constants).value, TInt)
    decreases e, 0
  {
    hide Type.Known, Type.Fine, Computed;
    var Compute(op, left, right) := e;
    Typed(left, env, types, call);
    Typed(right, env, types, call);
    RemainderFits(op, Eval(left, env, call.constants).value.value.number, Eval(right, env, call.constants).value.value.number);
  }

  predicate IsTruth(e: Expr) {
    || e.Not? || e.And? || e.Or? || e.Compare? || e.IsNone? || e.IsSome? || e.Quantified? || e.Contains?
    || e.IsSomeAnd? || e.IsNoneOr?
  }

  lemma TruthTyped(e: Expr, env: map<string, Data>, types: map<string, Type>, call: Call)
    requires WellTyped(env, types, call) && IsTruth(e)
    requires TypeOf(e, types, call.types).Some? && Eval(e, env, call.constants).Ok?
    ensures TypeOf(e, types, call.types).value == TBool && HasType(Eval(e, env, call.constants).value, TBool)
    decreases e, 1
  {
    hide Type.Known, Type.Fine, Compared, SameKind, WellTyped;
    match e
    case And(_, _) => ConnectiveTyped(e, env, types, call);
    case Or(_, _) => ConnectiveTyped(e, env, types, call);
    case Quantified(quantifier, _, collection, item, body) =>
      ItemsAreTrue(quantifier, Eval(collection, env, call.constants).value.items, item, body, env, call.constants);
    case Contains(collection, element) =>
      ContainsIsTrue(Eval(collection, env, call.constants).value.items, Eval(element, env, call.constants).value);
    case IsSomeAnd(_, _, _) => HeldTyped(e, env, types, call);
    case IsNoneOr(_, _, _) => HeldTyped(e, env, types, call);
    case _ => TestTyped(e, env, types, call);
  }

  lemma TestTyped(e: Expr, env: map<string, Data>, types: map<string, Type>, call: Call)
    requires e.Not? || e.Compare? || e.IsNone? || e.IsSome?
    requires TypeOf(e, types, call.types).Some? && Eval(e, env, call.constants).Ok?
    ensures TypeOf(e, types, call.types).value == TBool && HasType(Eval(e, env, call.constants).value, TBool)
  {
    hide Compared, SameKind, CanTell, IsNothing, OrderOptions;
    if e.Compare? {
      TrueOrFalse(e.op, Eval(e.left, env, call.constants).value, Eval(e.right, env, call.constants).value);
    }
  }

  lemma ConnectiveTyped(e: Expr, env: map<string, Data>, types: map<string, Type>, call: Call)
    requires WellTyped(env, types, call) && (e.And? || e.Or?)
    requires TypeOf(e, types, call.types).Some? && Eval(e, env, call.constants).Ok?
    ensures TypeOf(e, types, call.types).value == TBool && HasType(Eval(e, env, call.constants).value, TBool)
    decreases e, 0
  {
    hide Type.Known, Type.Fine, CompareData;
    if Eval(e.right, env, call.constants).Ok? {
      Typed(e.right, env, types, call);
    }
  }

  lemma HeldTyped(e: Expr, env: map<string, Data>, types: map<string, Type>, call: Call)
    requires WellTyped(env, types, call) && (e.IsSomeAnd? || e.IsNoneOr?)
    requires TypeOf(e, types, call.types).Some? && Eval(e.option, env, call.constants).Ok?
    ensures IsOption(TypeOf(e.option, types, call.types)) && Eval(e.option, env, call.constants).value.Opt?
    ensures var d := Eval(e.option, env, call.constants).value;
            && HasType(d, TypeOf(e.option, types, call.types).value)
            && (d.held.Some? && Eval(e.body, env[e.holding := d.held.value], call.constants).Ok? ==>
                  HasType(Eval(e.body, env[e.holding := d.held.value], call.constants).value, TBool))
    decreases e, 0
  {
    Typed(e.option, env, types, call);
    var d, t := Eval(e.option, env, call.constants).value, TypeOf(e.option, types, call.types).value;
    if d.held.Some? && Eval(e.body, env[e.holding := d.held.value], call.constants).Ok? {
      FineIsKnown(t.of);
      Typed(e.body, env[e.holding := d.held.value], types[e.holding := t.of], call);
    }
  }

  lemma {:induction false} ItemsAreTrue(quantifier: Quantifier, items: seq<Data>, item: string, body: Expr, env: map<string, Data>,
                                        constants: map<seq<string>, Data>)
    requires EvalItems(quantifier, items, item, body, env, constants).Ok?
    ensures HasType(EvalItems(quantifier, items, item, body, env, constants).value, TBool)
    decreases |items|
  {
    if items != [] {
      var first := Eval(body, env[item := items[0]], constants);
      if first.value.value.truth != quantifier.Any? {
        ItemsAreTrue(quantifier, items[1..], item, body, env, constants);
      }
    }
  }

  lemma {:induction false} ContainsIsTrue(items: seq<Data>, d: Data)
    requires EvalContains(items, d).Ok?
    ensures HasType(EvalContains(items, d).value, TBool)
    decreases |items|
  {
    if items != [] {
      if !CompareData(Eq, items[0], d).value.value.truth {
        ContainsIsTrue(items[1..], d);
      }
    }
  }

  // Each form of expression.

  /** A value that is there is not null. */
  lemma ScalarIsThere(d: Data, t: Type)
    requires HasType(d, t) && t.IsScalar()
    ensures T.ValueOf(d).Ok? && !T.ValueOf(d).value.Null? && T.ValueOf(Opt(Some(d))) == T.ValueOf(d)
  {
  }

  lemma ValueIsOne(d: Data, t: Type)
    requires HasType(d, t) && t.IsValue()
    ensures T.ValueOf(d).Ok? && (t.TOption? ==> T.ValueOf(d).value.Null? == d.held.None?)
  {
  }

  lemma DenotesIsWellTyped(scope: Scope, types: map<string, Type>, env: map<string, Data>, reading: T.Scope, call: Call)
    requires Denotes(scope, types, env, reading, call)
    ensures WellTyped(env, types, call)
  {
    hide Type.Fine, Type.Known, HasType;
    forall name | name in types
      ensures HasType(env[name], types[name]) && types[name].Known()
    {
      assert Named(scope, name, types[name], env[name], reading, call);
      if types[name].Fine() {
        FineIsKnown(types[name]);
      }
    }
  }

  /** A place's code reads what the place denotes. */
  lemma PlaceMeans(place: Place, d: Data, t: Type, reading: T.Scope, call: Call)
    requires place.Code().Ok? && HasType(d, t) && t.Known()
    requires PlaceData(place, reading) == Ok(d)
             || (PlaceData(place, reading) == Ok(Opt(Some(d))) && (t.IsScalar() || t.TObject?))
    requires place.names == [] && t.TOption? ==> t.of.IsScalar()
    ensures Build(place.Code().value, call.parameters, call.constants).Ok?
    ensures Means(Build(place.Code().value, call.parameters, call.constants).value, d, t, reading)
  {
    if place.names != [] {
      PathReads(place, reading);
    }
    if t.IsValue() {
      ValueIsOne(d, t);
    } else if t.TOption? && d.held.Some? {
      ObjectHasNoValue(d, t);
    }
  }

  /** The hypotheses of the theorem: names denote, the expression has a type, its code and its
      tree were built, and Rust has a value for it. */
  ghost predicate Given(e: Expr, scope: Scope, types: map<string, Type>, env: map<string, Data>, reading: T.Scope, call: Call) {
    && Denotes(scope, types, env, reading, call) && Avoids(e)
    && TypeOf(e, types, call.types).Some? && Eval(e, env, call.constants).Ok?
    && Compile(e, scope).Ok? && Build(Compile(e, scope).value, call.parameters, call.constants).Ok?
  }

  function TreeOf(e: Expr, scope: Scope, call: Call): T.Tree
    requires Compile(e, scope).Ok? && Build(Compile(e, scope).value, call.parameters, call.constants).Ok?
  {
    Build(Compile(e, scope).value, call.parameters, call.constants).value
  }

  /** The tree of `e` is what `e` is. */
  ghost predicate Preserved(e: Expr, scope: Scope, types: map<string, Type>, env: map<string, Data>, reading: T.Scope, call: Call)
    requires Given(e, scope, types, env, reading, call)
  {
    Means(TreeOf(e, scope, call), Eval(e, env, call.constants).value, TypeOf(e, types, call.types).value, reading)
  }

  lemma ObjectHasNoValue(d: Data, t: Type)
    requires HasType(d, t) && t.TOption? && t.of.TObject?
    ensures d.held.Some? ==> T.ValueOf(d) == Failed && T.ObjectOf(d).Ok?
  {
    if d.held.Some? {
      assert HasType(d.held.value, t.of);
      assert T.ValueOf(d.held.value) == Failed;
    }
  }

  lemma OutsideMeans(outside: Expr, d: Data, t: Type, reading: T.Scope, call: Call)
    requires HasType(d, t) && t.Known()
    requires Eval(outside, call.parameters, call.constants) == Ok(d)
             || (Eval(outside, call.parameters, call.constants) == Ok(Opt(Some(d))) && (t.IsScalar() || t.TObject?))
    requires Build(OutsideValue(outside), call.parameters, call.constants).Ok?
    ensures Means(Build(OutsideValue(outside), call.parameters, call.constants).value, d, t, reading)
  {
    if t.IsValue() {
      ValueIsOne(d, t);
      if t.IsScalar() {
        ScalarIsThere(d, t);
      }
    } else if t.TOption? {
      ObjectHasNoValue(d, t);
    }
  }

  /** A name, a member or a constant. */
  lemma NamePreserved(e: Expr, scope: Scope, types: map<string, Type>, env: map<string, Data>, reading: T.Scope, call: Call)
    requires Given(e, scope, types, env, reading, call) && (e.Name? || e.Constant? || e.Member?)
    ensures Preserved(e, scope, types, env, reading, call)
  {
    NameCodeMeans(e, scope, types, env, reading, call);
  }

  lemma NameCodeMeans(e: Expr, scope: Scope, types: map<string, Type>, env: map<string, Data>, reading: T.Scope, call: Call)
    requires Denotes(scope, types, env, reading, call)
    requires TypeOf(e, types, call.types).Some? && Eval(e, env, call.constants).Ok?
    requires NameCode(e, scope).Ok? && Build(NameCode(e, scope).value, call.parameters, call.constants).Ok?
    ensures Means(Build(NameCode(e, scope).value, call.parameters, call.constants).value,
                  Eval(e, env, call.constants).value, TypeOf(e, types, call.types).value, reading)
  {
    var d, t := Eval(e, env, call.constants).value, TypeOf(e, types, call.types).value;
    DenotesIsWellTyped(scope, types, env, reading, call);
    Typed(e, env, types, call);
    var placed := PlaceOf(e, scope);
    if placed.At? {
      PlaceDenotes(e, scope, types, env, reading, call);
      PlaceMeans(placed.place, d, t, reading, call);
    } else {
      OutsideStands(e, scope, types, env, reading, call);
      OutsideMeans(Outside(e, scope).value, d, t, reading, call);
    }
  }

  lemma {:induction false} NothingHasNoType(e: Expr, types: map<string, Type>, constants: map<seq<string>, Type>)
    requires IsNothing(e)
    ensures TypeOf(e, types, constants) == None
  {
    match e
    case NoneLiteral =>
    case Wrapped(inner) => NothingHasNoType(inner, types, constants);
    case Block(inner) => NothingHasNoType(inner, types, constants);
    case Kept(inner) => NothingHasNoType(inner, types, constants);
  }

  lemma {:induction false} NothingIsNull(e: Expr, scope: Scope, env: map<string, Data>, call: Call)
    requires IsNothing(e)
    ensures Eval(e, env, call.constants) == Ok(Opt(None)) && Compile(e, scope) == Ok(Code.Constant(Null))
  {
    match e
    case NoneLiteral =>
    case Wrapped(inner) => NothingIsNull(inner, scope, env, call);
    case Block(inner) => NothingIsNull(inner, scope, env, call);
    case Kept(inner) => NothingIsNull(inner, scope, env, call);
  }

  /** A value that is not optional is not the null constant. */
  lemma ScalarIsNotNull(tree: T.Tree, d: Data, t: Type, reading: T.Scope)
    requires Means(tree, d, t, reading) && HasType(d, t) && t.IsScalar()
    ensures tree != T.Tree.Constant(Null) && T.Evaluate(tree, reading) == Ok(d.value) && !d.value.Null?
  {
  }

  /** A comparison of values that are not optional. */
  lemma ComparePreserved(op: Comparison, l: T.Tree, r: T.Tree, a: Data, b: Data, t: Type, reading: T.Scope)
    requires Means(l, a, t, reading) && Means(r, b, t, reading) && HasType(a, t) && HasType(b, t) && t.IsScalar()
    ensures CompareData(op, a, b).Ok? && Means(T.Tree.Compare(op, l, r), CompareData(op, a, b).value, TBool, reading)
    ensures NullTest(op, l, r) == T.Tree.Compare(op, l, r)
  {
    hide Means, Compared;
    ScalarIsNotNull(l, a, t, reading);
    ScalarIsNotNull(r, b, t, reading);
    assert T.Evaluate(T.Tree.Compare(op, l, r), reading) == Ok(Bool(Compared(op, a.value, b.value)));
    TrueMeans(T.Tree.Compare(op, l, r), Compared(op, a.value, b.value), reading);
  }

  /** The value of an `Option`'s tree: null as it is none, and otherwise what it holds. */
  lemma OptionReads(tree: T.Tree, d: Data, of: Type, reading: T.Scope)
    requires of.IsScalar() && HasType(d, TOption(of, Unsure)) && Means(tree, d, TOption(of, Unsure), reading)
    ensures d.held.Some? ==> d.held.value.Scalar? && !d.held.value.value.Null?
    ensures T.Evaluate(tree, reading) == Ok(if d.held.Some? then d.held.value.value else Null)
  {
    ValueIsOne(d, TOption(of, Unsure));
    if d.held.Some? {
      ScalarIsThere(d.held.value, of);
    }
  }

  lemma OptionsHaveOrder(op: Comparison, a: Data, b: Data, of: Type)
    requires of.IsScalar() && HasType(a, TOption(of, Unsure)) && HasType(b, TOption(of, Unsure))
    ensures CompareData(op, a, b).Ok? && HasType(CompareData(op, a, b).value, TBool)
    ensures a.held.Some? && b.held.Some? ==>
              && a.held.value.Scalar? && b.held.value.Scalar? && SameKind(a.held.value.value, b.held.value.value)
              && CompareData(op, a, b) == Truth(Compared(op, a.held.value.value, b.held.value.value))
  {
  }

  /** Comparing the trees of two `Option`s of one kind: null as either is none, and otherwise
      what Rust has. */
  lemma OptionsCompared(op: Comparison, a: Data, b: Data, of: Type, l: T.Tree, r: T.Tree, reading: T.Scope)
    requires of.IsScalar() && HasType(a, TOption(of, Unsure)) && HasType(b, TOption(of, Unsure))
    requires Means(l, a, TOption(of, Unsure), reading) && Means(r, b, TOption(of, Unsure), reading)
    ensures CompareData(op, a, b).Ok? && HasType(CompareData(op, a, b).value, TBool)
    ensures T.Evaluate(T.Tree.Compare(op, l, r), reading)
            == Ok(if a.held.Some? && b.held.Some? then CompareData(op, a, b).value.value else Null)
  {
    hide CompareData, Compared, Means, SameKind;
    OptionReads(l, a, of, reading);
    OptionReads(r, b, of, reading);
    OptionsHaveOrder(op, a, b, of);
  }

  /** Equality of two `Option`s of one kind, as the null test builds it. The tree's value is
      Rust's exactly when one operand is the null constant, as a parameter that is none is, or
      both hold something; otherwise it is null, false under a `!` and beside it alike. */
  lemma OptionalEquality(op: Comparison, a: Data, b: Data, of: Type, l: T.Tree, r: T.Tree, reading: T.Scope)
    requires (op.Eq? || op.Ne?) && of.IsScalar() && HasType(a, TOption(of, Unsure)) && HasType(b, TOption(of, Unsure))
    requires Means(l, a, TOption(of, Unsure), reading) && Means(r, b, TOption(of, Unsure), reading)
    ensures CompareData(op, a, b).Ok? && HasType(CompareData(op, a, b).value, TBool)
    ensures var tree, tested := NullTest(op, l, r), l == T.Tree.Constant(Null) || r == T.Tree.Constant(Null);
            && (T.Evaluate(tree, reading) == T.ValueOf(CompareData(op, a, b).value) <==> tested || (a.held.Some? && b.held.Some?))
            && (!tested && (a.held.None? || b.held.None?) ==> T.Evaluate(tree, reading) == Ok(Null))
  {
    OptionsCompared(op, a, b, of, l, r, reading);
    if l == T.Tree.Constant(Null) || r == T.Tree.Constant(Null) {
      hide CompareData, NullTest;
      assert l == T.Tree.Constant(Null) ==> a == Opt(None);
      assert r == T.Tree.Constant(Null) ==> b == Opt(None);
      NullTestPreserved(op, l, r, a, b, reading);
    } else {
      hide T.Evaluate, CompareData;
    }
  }

  lemma TrueMeans(tree: T.Tree, b: bool, reading: T.Scope)
    requires T.Evaluate(tree, reading) == Ok(Bool(b))
    ensures Means(tree, Scalar(Bool(b)), TBool, reading)
  {
  }

  /** A test of an `Option` against the constant `None`, on either side. */
  lemma NullTestPreserved(op: Comparison, l: T.Tree, r: T.Tree, a: Data, b: Data, reading: T.Scope)
    requires op.Eq? || op.Ne?
    requires a.Opt? && T.Nullness(l, reading) == Ok(a.held.None?) && b.Opt? && T.Nullness(r, reading) == Ok(b.held.None?)
    requires (l == T.Tree.Constant(Null) && a == Opt(None)) || (r == T.Tree.Constant(Null) && b == Opt(None))
    ensures CompareData(op, a, b).Ok? && Means(NullTest(op, l, r), CompareData(op, a, b).value, TBool, reading)
  {
    if r == T.Tree.Constant(Null) {
      assert b == Opt(None);
    }
  }

  function Join(deciding: bool, l: T.Tree, r: T.Tree): T.Tree {
    if deciding then T.Tree.Or(l, r) else T.Tree.And(l, r)
  }

  /** The left side decides, and the right, null though it may be, is not read. */
  lemma LeftDecides(l: T.Tree, r: T.Tree, deciding: bool, reading: T.Scope)
    requires T.Evaluate(l, reading) == Ok(Bool(deciding))
    ensures T.Evaluate(Join(deciding, l, r), reading) == Ok(Bool(deciding))
  {
  }

  lemma RightDecides(l: T.Tree, r: T.Tree, deciding: bool, b: bool, reading: T.Scope)
    requires T.Evaluate(l, reading) == Ok(Bool(!deciding)) && T.Evaluate(r, reading) == Ok(Bool(b))
    ensures T.Evaluate(Join(deciding, l, r), reading) == Ok(Bool(b))
  {
    assert T.Connected(Join(deciding, l, r), reading) == Ok(Bool(b));
  }

  lemma NotPreserved(tree: T.Tree, b: bool, reading: T.Scope)
    requires T.Evaluate(tree, reading) == Ok(Bool(b))
    ensures T.Evaluate(T.Tree.Not(tree), reading) == Ok(Bool(!b))
  {
  }

  lemma ComputePreserved(op: Arithmetic, l: T.Tree, r: T.Tree, a: int, b: int, reading: T.Scope)
    requires T.Evaluate(l, reading) == Ok(Int(a)) && T.Evaluate(r, reading) == Ok(Int(b)) && Computed(op, a, b).Ok?
    ensures T.Evaluate(T.Tree.Compute(op, l, r), reading) == Ok(Int(Computed(op, a, b).value))
  {
    if op.Rem? && b == -1 {
      assert TruncatedQuotient(a, b) == -a;
    }
  }

  // By the structure of the expression.

  lemma GivenIsTyped(e: Expr, scope: Scope, types: map<string, Type>, env: map<string, Data>, reading: T.Scope, call: Call)
    requires Given(e, scope, types, env, reading, call)
    ensures HasType(Eval(e, env, call.constants).value, TypeOf(e, types, call.types).value)
    ensures TypeOf(e, types, call.types).value.Known()
  {
    hide Eval, TypeOf, Compile, Build;
    DenotesIsWellTyped(scope, types, env, reading, call);
    Typed(e, env, types, call);
  }

  lemma NotCase(e: Expr, scope: Scope, types: map<string, Type>, env: map<string, Data>, reading: T.Scope, call: Call)
    requires Given(e, scope, types, env, reading, call) && e.Not?
    ensures Preserved(e, scope, types, env, reading, call)
    decreases e, 1
  {
    hide T.Evaluate, Denotes;
    Preserves(e.inner, scope, types, env, reading, call);
    NotPreserved(TreeOf(e.inner, scope, call), Eval(e.inner, env, call.constants).value.value.truth, reading);
  }

  lemma NegCase(e: Expr, scope: Scope, types: map<string, Type>, env: map<string, Data>, reading: T.Scope, call: Call)
    requires Given(e, scope, types, env, reading, call) && e.Neg?
    ensures Preserved(e, scope, types, env, reading, call)
    decreases e, 1
  {
    hide Denotes;
    if !(e.inner.Literal? && e.inner.value.Int?) {
      Preserves(e.inner, scope, types, env, reading, call);
    }
  }

  lemma ConnectiveCase(e: Expr, scope: Scope, types: map<string, Type>, env: map<string, Data>, reading: T.Scope, call: Call)
    requires Given(e, scope, types, env, reading, call) && (e.And? || e.Or?)
    ensures Preserved(e, scope, types, env, reading, call)
    decreases e, 1
  {
    hide T.Evaluate, Denotes;
    Preserves(e.left, scope, types, env, reading, call);
    var l, r := TreeOf(e.left, scope, call), TreeOf(e.right, scope, call);
    if Eval(e.left, env, call.constants).value.value.truth == e.Or? {
      LeftDecides(l, r, e.Or?, reading);
    } else {
      Preserves(e.right, scope, types, env, reading, call);
      GivenIsTyped(e.right, scope, types, env, reading, call);
      RightDecides(l, r, e.Or?, Eval(e.right, env, call.constants).value.value.truth, reading);
    }
  }

  lemma ComputeCase(e: Expr, scope: Scope, types: map<string, Type>, env: map<string, Data>, reading: T.Scope, call: Call)
    requires Given(e, scope, types, env, reading, call) && e.Compute?
    ensures Preserved(e, scope, types, env, reading, call)
    decreases e, 1
  {
    hide T.Evaluate, Denotes, Computed;
    Preserves(e.left, scope, types, env, reading, call);
    Preserves(e.right, scope, types, env, reading, call);
    ComputePreserved(e.operation, TreeOf(e.left, scope, call), TreeOf(e.right, scope, call),
                     Eval(e.left, env, call.constants).value.value.number, Eval(e.right, env, call.constants).value.value.number, reading);
  }

  /** An operand of a null test: the constant `None`, or an `Option`. */
  lemma OperandIsTested(e: Expr, scope: Scope, types: map<string, Type>, env: map<string, Data>, reading: T.Scope, call: Call)
    requires Denotes(scope, types, env, reading, call) && Avoids(e)
    requires Eval(e, env, call.constants).Ok? && Compile(e, scope).Ok?
    requires Build(Compile(e, scope).value, call.parameters, call.constants).Ok?
    requires IsNothing(e) || IsOption(TypeOf(e, types, call.types))
    ensures var d := Eval(e, env, call.constants).value;
            && d.Opt? && T.Nullness(TreeOf(e, scope, call), reading) == Ok(d.held.None?)
            && (IsNothing(e) ==> d == Opt(None) && TreeOf(e, scope, call) == T.Tree.Constant(Null))
    decreases e, 3
  {
    hide Denotes, Eval, TypeOf, Compile;
    if IsNothing(e) {
      NothingIsNull(e, scope, env, call);
    } else {
      Preserves(e, scope, types, env, reading, call);
      GivenIsTyped(e, scope, types, env, reading, call);
    }
  }

  lemma CompareNoneCase(e: Expr, scope: Scope, types: map<string, Type>, env: map<string, Data>, reading: T.Scope, call: Call)
    requires Given(e, scope, types, env, reading, call) && e.Compare? && (IsNothing(e.left) || IsNothing(e.right))
    ensures Preserved(e, scope, types, env, reading, call)
    decreases e, 0
  {
    hide T.Evaluate, T.Nullness, Denotes, CompareData, NullTest, IsSeenOption;
    OperandIsTested(e.left, scope, types, env, reading, call);
    OperandIsTested(e.right, scope, types, env, reading, call);
    NullTestPreserved(e.op, TreeOf(e.left, scope, call), TreeOf(e.right, scope, call),
                      Eval(e.left, env, call.constants).value, Eval(e.right, env, call.constants).value, reading);
  }

  /** A value from outside: a parameter or a constant, and what a parameter holds. */
  predicate IsOutside(e: Expr, scope: Scope) {
    match e
    case Wrapped(inner) => IsOutside(inner, scope)
    case Block(inner) => IsOutside(inner, scope)
    case Kept(inner) => IsOutside(inner, scope)
    case Name(_) => PlaceOf(e, scope).OutOfPlace?
    case Constant(_) => PlaceOf(e, scope).OutOfPlace?
    case Member(_, _) => PlaceOf(e, scope).OutOfPlace?
    case _ => false
  }

  /** Wrapping changes nothing. */
  lemma InnerIsGiven(e: Expr, scope: Scope, types: map<string, Type>, env: map<string, Data>, reading: T.Scope, call: Call)
    requires Given(e, scope, types, env, reading, call) && (e.Wrapped? || e.Block? || e.Kept?)
    ensures Given(e.inner, scope, types, env, reading, call) && TreeOf(e.inner, scope, call) == TreeOf(e, scope, call)
    ensures TypeOf(e.inner, types, call.types) == TypeOf(e, types, call.types)
    ensures Eval(e.inner, env, call.constants) == Eval(e, env, call.constants)
    ensures IsOutside(e, scope) == IsOutside(e.inner, scope)
  {
    hide Denotes;
  }

  /** What can be an `Option`. */
  lemma OptionForms(e: Expr, types: map<string, Type>, constants: map<seq<string>, Type>)
    ensures IsOption(TypeOf(e, types, constants)) ==>
              || e.Wrapped? || e.Block? || e.Kept? || e.Name? || e.Constant? || e.Member?
              || (e.SomeOf? && TypeOf(e, types, constants).value.sure.ThatSome?)
  {
    if e.IsSomeAnd? || e.IsNoneOr? {
      assert TypeOf(e, types, constants) == HeldType(TypeOf(e.option, types, constants), e.holding, e.body, types, constants);
    }
  }

  /** The tree of an `Option` is the null constant exactly when the `Option` is from outside and
      none. */
  lemma {:induction false} NullConstant(e: Expr, scope: Scope, types: map<string, Type>, env: map<string, Data>, reading: T.Scope,
                                        call: Call)
    requires Given(e, scope, types, env, reading, call) && IsOption(TypeOf(e, types, call.types))
    ensures TreeOf(e, scope, call) == T.Tree.Constant(Null) <==> IsOutside(e, scope) && Eval(e, env, call.constants).value == Opt(None)
    decreases e, 3
  {
    hide Denotes, TypeOf;
    OptionForms(e, types, call.types);
    if e.Wrapped? || e.Block? || e.Kept? {
      hide Compile, Build, Eval;
      InnerIsGiven(e, scope, types, env, reading, call);
      NullConstant(e.inner, scope, types, env, reading, call);
    } else if e.SomeOf? {
      SomeIsNotNull(e, scope, types, env, reading, call);
    } else {
      NameNullConstant(e, scope, types, env, reading, call);
    }
  }

  lemma SomeIsNotNull(e: Expr, scope: Scope, types: map<string, Type>, env: map<string, Data>, reading: T.Scope, call: Call)
    requires Given(e, scope, types, env, reading, call) && e.SomeOf?
    ensures TreeOf(e, scope, call) != T.Tree.Constant(Null)
    decreases e, 2
  {
    hide Denotes;
    Preserves(e.inner, scope, types, env, reading, call);
    GivenIsTyped(e.inner, scope, types, env, reading, call);
    ScalarIsNotNull(TreeOf(e.inner, scope, call), Eval(e.inner, env, call.constants).value, TypeOf(e.inner, types, call.types).value,
                    reading);
  }

  lemma NameNullConstant(e: Expr, scope: Scope, types: map<string, Type>, env: map<string, Data>, reading: T.Scope, call: Call)
    requires Given(e, scope, types, env, reading, call) && IsOption(TypeOf(e, types, call.types)) && (e.Name? || e.Constant? || e.Member?)
    ensures TreeOf(e, scope, call) == T.Tree.Constant(Null) <==> IsOutside(e, scope) && Eval(e, env, call.constants).value == Opt(None)
  {
    hide Denotes, TypeOf;
    GivenIsTyped(e, scope, types, env, reading, call);
    assert Compile(e, scope) == NameCode(e, scope);
    var d, t := Eval(e, env, call.constants).value, TypeOf(e, types, call.types).value;
    if !PlaceOf(e, scope).At? {
      OutsideStands(e, scope, types, env, reading, call);
      if d.held.Some? {
        HeldIsNotNull(d.held.value, t.of);
      }
    }
  }

  lemma HeldIsNotNull(d: Data, t: Type)
    requires HasType(d, t) && (t.IsScalar() || t.TObject?)
    ensures T.ValueOf(Opt(Some(d))) != Ok(Null)
  {
  }

  /** What is known to be none is from outside. */
  lemma {:induction false} NoneIsOutside(e: Expr, scope: Scope, types: map<string, Type>, env: map<string, Data>, reading: T.Scope,
                                         call: Call)
    requires Given(e, scope, types, env, reading, call) && IsOption(TypeOf(e, types, call.types))
    requires TypeOf(e, types, call.types).value.sure.ThatNone?
    ensures IsOutside(e, scope)
  {
    hide Denotes, TypeOf, Eval, Build;
    OptionForms(e, types, call.types);
    if e.Wrapped? || e.Block? || e.Kept? {
      InnerIsGiven(e, scope, types, env, reading, call);
      NoneIsOutside(e.inner, scope, types, env, reading, call);
    } else {
      NameIsOutside(e, scope, types, env, reading, call);
    }
  }

  lemma NameIsOutside(e: Expr, scope: Scope, types: map<string, Type>, env: map<string, Data>, reading: T.Scope, call: Call)
    requires Denotes(scope, types, env, reading, call) && IsOption(TypeOf(e, types, call.types))
    requires TypeOf(e, types, call.types).value.sure.ThatNone? && NameCode(e, scope).Ok?
    ensures PlaceOf(e, scope).OutOfPlace?
  {
    if PlaceOf(e, scope).At? {
      ChainIsTyped(e, types, call.types);
      ChainIsFine(e, types, call.types);
    }
  }

  lemma Unsured(d: Data, t: Type, tree: T.Tree, reading: T.Scope)
    requires HasType(d, t) && Means(tree, d, t, reading) && t.TOption?
    ensures HasType(d, TOption(t.of, Unsure)) && Means(tree, d, TOption(t.of, Unsure), reading)
  {
  }

  /** An equality of `Option`s that can be told. */
  lemma ToldPreserved(op: Comparison, l: T.Tree, r: T.Tree, a: Data, b: Data, t: Type, s: Type, reading: T.Scope)
    requires (op.Eq? || op.Ne?) && CanTell(Some(t), Some(s)) && HasType(a, t) && HasType(b, s)
    requires Means(l, a, t, reading) && Means(r, b, s, reading)
    requires (t.sure.ThatNone? ==> l == T.Tree.Constant(Null)) && (s.sure.ThatNone? ==> r == T.Tree.Constant(Null))
    ensures CompareData(op, a, b).Ok? && Means(NullTest(op, l, r), CompareData(op, a, b).value, TBool, reading)
    ensures HasType(CompareData(op, a, b).value, TBool)
  {
    hide NullTest, CompareData, T.Evaluate, T.Nullness;
    Unsured(a, t, l, reading);
    Unsured(b, s, r, reading);
    OptionalEquality(op, a, b, t.of, l, r, reading);
    TrueMeans(NullTest(op, l, r), CompareData(op, a, b).value.value.truth, reading);
  }

  /** The tree of what is known to be none is the null constant. */
  lemma ToldNone(e: Expr, scope: Scope, types: map<string, Type>, env: map<string, Data>, reading: T.Scope, call: Call)
    requires Given(e, scope, types, env, reading, call) && IsOption(TypeOf(e, types, call.types))
    ensures TypeOf(e, types, call.types).value.sure.ThatNone? ==> TreeOf(e, scope, call) == T.Tree.Constant(Null)
    decreases e, 4
  {
    hide Denotes, TypeOf, Eval, Compile, Build;
    GivenIsTyped(e, scope, types, env, reading, call);
    if TypeOf(e, types, call.types).value.sure.ThatNone? {
      NoneIsOutside(e, scope, types, env, reading, call);
      NullConstant(e, scope, types, env, reading, call);
    }
  }

  lemma CompareOptionsCase(e: Expr, scope: Scope, types: map<string, Type>, env: map<string, Data>, reading: T.Scope, call: Call)
    requires Given(e, scope, types, env, reading, call) && e.Compare? && !IsNothing(e.left) && !IsNothing(e.right)
    requires CanTell(TypeOf(e.left, types, call.types), TypeOf(e.right, types, call.types))
    ensures Preserved(e, scope, types, env, reading, call)
    decreases e, 0
  {
    hide T.Evaluate, T.Nullness, Denotes, CompareData, NullTest, IsSeenOption, Means;
    Preserves(e.left, scope, types, env, reading, call);
    Preserves(e.right, scope, types, env, reading, call);
    GivenIsTyped(e.left, scope, types, env, reading, call);
    GivenIsTyped(e.right, scope, types, env, reading, call);
    ToldNone(e.left, scope, types, env, reading, call);
    ToldNone(e.right, scope, types, env, reading, call);
    ToldPreserved(e.op, TreeOf(e.left, scope, call), TreeOf(e.right, scope, call), Eval(e.left, env, call.constants).value,
                  Eval(e.right, env, call.constants).value, TypeOf(e.left, types, call.types).value,
                  TypeOf(e.right, types, call.types).value, reading);
  }

  lemma CompareCase(e: Expr, scope: Scope, types: map<string, Type>, env: map<string, Data>, reading: T.Scope, call: Call)
    requires Given(e, scope, types, env, reading, call) && e.Compare?
    ensures Preserved(e, scope, types, env, reading, call)
    decreases e, 1
  {
    hide T.Evaluate, T.Nullness, Denotes, CompareData, NullTest, IsSeenOption;
    if IsNothing(e.left) || IsNothing(e.right) {
      CompareNoneCase(e, scope, types, env, reading, call);
    } else if IsOption(TypeOf(e.left, types, call.types)) {
      CompareOptionsCase(e, scope, types, env, reading, call);
    } else {
      Preserves(e.left, scope, types, env, reading, call);
      Preserves(e.right, scope, types, env, reading, call);
      GivenIsTyped(e.left, scope, types, env, reading, call);
      GivenIsTyped(e.right, scope, types, env, reading, call);
      ComparePreserved(e.op, TreeOf(e.left, scope, call), TreeOf(e.right, scope, call), Eval(e.left, env, call.constants).value,
                       Eval(e.right, env, call.constants).value, TypeOf(e.left, types, call.types).value, reading);
    }
  }

  lemma NoneParts(e: Expr, scope: Scope, types: map<string, Type>, env: map<string, Data>, reading: T.Scope, call: Call)
    requires Given(e, scope, types, env, reading, call) && (e.IsNone? || e.IsSome?)
    ensures Compile(e.inner, scope).Ok? && Build(Compile(e.inner, scope).value, call.parameters, call.constants).Ok?
    ensures var inner := TreeOf(e.inner, scope, call);
            TreeOf(e, scope, call) == if e.IsNone? then T.IsNull(inner) else T.IsNotNull(inner)
    ensures Avoids(e.inner) && (IsNothing(e.inner) || IsOption(TypeOf(e.inner, types, call.types)))
    ensures TypeOf(e, types, call.types) == Some(TBool)
    ensures Eval(e.inner, env, call.constants).Ok? && Eval(e.inner, env, call.constants).value.Opt?
    ensures var held := Eval(e.inner, env, call.constants).value.held;
            Eval(e, env, call.constants) == Truth(if e.IsNone? then held.None? else held.Some?)
  {
    hide Denotes, CompareData, NullTest, IsSeenOption, Computed;
  }

  lemma NoneCase(e: Expr, scope: Scope, types: map<string, Type>, env: map<string, Data>, reading: T.Scope, call: Call)
    requires Given(e, scope, types, env, reading, call) && (e.IsNone? || e.IsSome?)
    ensures Preserved(e, scope, types, env, reading, call)
    decreases e, 1
  {
    hide Denotes, T.Nullness, T.Evaluate;
    NoneParts(e, scope, types, env, reading, call);
    hide Eval, TypeOf, Compile, Build;
    OperandIsTested(e.inner, scope, types, env, reading, call);
    TestsNull(TreeOf(e.inner, scope, call), Eval(e.inner, env, call.constants).value.held.None?, reading);
    TrueMeans(TreeOf(e, scope, call), Eval(e, env, call.constants).value.value.truth, reading);
  }

  lemma SomeCase(e: Expr, scope: Scope, types: map<string, Type>, env: map<string, Data>, reading: T.Scope, call: Call)
    requires Given(e, scope, types, env, reading, call) && e.SomeOf?
    ensures Preserved(e, scope, types, env, reading, call)
    decreases e, 1
  {
    hide Denotes;
    Preserves(e.inner, scope, types, env, reading, call);
    GivenIsTyped(e.inner, scope, types, env, reading, call);
    var d, t := Eval(e.inner, env, call.constants).value, TypeOf(e.inner, types, call.types).value;
    ScalarIsThere(d, t);
  }

  /** The collection of a quantifier is where its path leads. */
  lemma SourceIsThere(collection: Expr, scope: Scope, types: map<string, Type>, env: map<string, Data>, reading: T.Scope, call: Call)
    requires Denotes(scope, types, env, reading, call) && SourceOf(collection, scope).Ok?
    requires TypeOf(collection, types, call.types).Some? && TypeOf(collection, types, call.types).value.TList?
    requires Eval(collection, env, call.constants).Ok?
    ensures T.MemberOf(SourceOf(collection, scope).value, reading) == Eval(collection, env, call.constants)
  {
    PlaceDenotes(collection, scope, types, env, reading, call);
    PathReads(PlaceOf(collection, scope).place, reading);
  }

  /** Item by item, a quantifier stops where Rust's does. */
  lemma {:induction false} ItemsPreserved(quantifier: Quantifier, items: seq<Data>, item: string, t: Type, body: Expr, scope: Scope,
                       types: map<string, Type>, env: map<string, Data>, reading: T.Scope, call: Call)
    requires Denotes(scope, types, env, reading, call) && Avoids(body) && item != UNNAMED
    requires t.Fine() && (t.IsValue() || t.TObject?) && forall i :: 0 <= i < |items| ==> HasType(items[i], t)
    requires TypeOf(body, types[item := t], call.types) == Some(TBool)
    requires Compile(body, scope.Inside(item)).Ok?
    requires Build(Compile(body, scope.Inside(item)).value, call.parameters, call.constants).Ok?
    requires EvalItems(quantifier, items, item, body, env, call.constants).Ok?
    ensures var found := EvalItems(quantifier, items, item, body, env, call.constants).value;
            && HasType(found, TBool)
            && T.SomeItem(items, if quantifier.Any? then TreeOf(body, scope.Inside(item), call)
                                 else T.Tree.Not(TreeOf(body, scope.Inside(item), call)), reading)
               == Ok(Bool(if quantifier.Any? then found.value.truth else !found.value.truth))
    decreases body, 3, |items|
  {
    hide Denotes, Compile, Build, TypeOf, Eval;
    if items != [] {
      InsideDenotes(scope, types, env, reading, call, item, t, items[0]);
      Preserves(body, scope.Inside(item), types[item := t], env[item := items[0]], reading.Inside(items[0]), call);
      var b := Eval(body, env[item := items[0]], call.constants).value.value.truth;
      NotPreserved(TreeOf(body, scope.Inside(item), call), b, reading.Inside(items[0]));
      if b != quantifier.Any? {
        ItemsPreserved(quantifier, items[1..], item, t, body, scope, types, env, reading, call);
      }
    }
  }

  lemma AnyReads(source: T.Path, condition: T.Tree, items: seq<Data>, found: bool, reading: T.Scope)
    requires T.MemberOf(source, reading) == Ok(List(items)) && T.SomeItem(items, condition, reading) == Ok(Bool(found))
    ensures T.Evaluate(T.Tree.Any(source, condition), reading) == Ok(Bool(found))
  {
  }

  lemma QuantifiedCase(e: Expr, scope: Scope, types: map<string, Type>, env: map<string, Data>, reading: T.Scope, call: Call)
    requires Given(e, scope, types, env, reading, call) && e.Quantified?
    ensures Preserved(e, scope, types, env, reading, call)
    decreases e, 1
  {
    hide Denotes, T.Evaluate, T.SomeItem, EvalItems, SourceOf;
    DenotesIsWellTyped(scope, types, env, reading, call);
    Typed(e.collection, env, types, call);
    SourceIsThere(e.collection, scope, types, env, reading, call);
    var items := Eval(e.collection, env, call.constants).value.items;
    ItemsPreserved(e.quantifier, items, e.item, TypeOf(e.collection, types, call.types).value.of, e.body, scope, types, env, reading, call);
    var found := Eval(e, env, call.constants).value.value.truth;
    var source, body := SourceOf(e.collection, scope).value, TreeOf(e.body, scope.Inside(e.item), call);
    if e.quantifier.Any? {
      AnyReads(source, body, items, found, reading);
    } else {
      AnyReads(source, T.Tree.Not(body), items, !found, reading);
      NotPreserved(T.Tree.Any(source, T.Tree.Not(body)), !found, reading);
    }
  }

  /** An item is itself, nearest. */
  lemma ItemIsItself(item: Data, t: Type, reading: T.Scope)
    requires HasType(item, t) && t.IsValue()
    ensures Means(T.Itself(0), item, t, reading.Inside(item))
  {
    ValueIsOne(item, t);
  }

  /** What the elements of a collection can be asked to equal. */
  predicate CanAsk(of: Type, element: Expr, t: Option<Type>) {
    || (of.IsScalar() && t == Some(of)) || (of.TOption? && of.of.IsScalar() && IsNothing(element))
    || (CanTell(Some(of), t) && !of.sure.ThatNone?)
  }

  /** Whether the element of a collection is the one asked for. */
  lemma ElementPreserved(item: Data, of: Type, element: Expr, scope: Scope, types: map<string, Type>, env: map<string, Data>,
                         reading: T.Scope, call: Call)
    requires Denotes(scope, types, env, reading, call) && Avoids(element) && HasType(item, of)
    requires CanAsk(of, element, TypeOf(element, types, call.types))
    requires Eval(element, env, call.constants).Ok? && Compile(element, scope.Inside(UNNAMED)).Ok?
    requires Build(Compile(element, scope.Inside(UNNAMED)).value, call.parameters, call.constants).Ok?
    ensures var compared := CompareData(Eq, item, Eval(element, env, call.constants).value);
            && compared.Ok? && HasType(compared.value, TBool)
            && T.Evaluate(NullTest(Eq, T.Itself(0), TreeOf(element, scope.Inside(UNNAMED), call)), reading.Inside(item))
               == Ok(Bool(compared.value.value.truth))
    decreases element, 5
  {
    hide Denotes, Compile, Build, TypeOf, Eval, T.Evaluate, T.Nullness, CompareData, NullTest;
    var inside, there := scope.Inside(UNNAMED), reading.Inside(item);
    InsideUnnamedDenotes(scope, types, env, reading, call, item);
    ItemIsItself(item, of, reading);
    var d, tree := Eval(element, env, call.constants).value, TreeOf(element, inside, call);
    if IsNothing(element) {
      NothingHasNoType(element, types, call.types);
      OperandIsTested(element, inside, types, env, there, call);
      NullTestPreserved(Eq, T.Itself(0), tree, item, d, there);
      TrueOrFalse(Eq, item, d);
    } else {
      Preserves(element, inside, types, env, there, call);
      GivenIsTyped(element, inside, types, env, there, call);
      if of.TOption? {
        ToldNone(element, inside, types, env, there, call);
      }
      AskedPreserved(item, of, T.Itself(0), d, TypeOf(element, types, call.types).value, tree, there);
    }
  }

  lemma AskedPreserved(item: Data, of: Type, itself: T.Tree, d: Data, t: Type, tree: T.Tree, reading: T.Scope)
    requires HasType(item, of) && Means(itself, item, of, reading) && HasType(d, t) && Means(tree, d, t, reading)
    requires (of.IsScalar() && t == of) || (CanTell(Some(of), Some(t)) && !of.sure.ThatNone?)
    requires t.TOption? && t.sure.ThatNone? ==> tree == T.Tree.Constant(Null)
    ensures var compared := CompareData(Eq, item, d);
            && compared.Ok? && HasType(compared.value, TBool)
            && T.Evaluate(NullTest(Eq, itself, tree), reading) == Ok(Bool(compared.value.value.truth))
  {
    hide CompareData, NullTest, T.Evaluate, T.Nullness;
    if of.TOption? {
      ToldPreserved(Eq, itself, tree, item, d, of, t, reading);
    } else {
      ComparePreserved(Eq, itself, tree, item, d, of, reading);
      TrueOrFalse(Eq, item, d);
    }
  }

  lemma TrueOrFalse(op: Comparison, a: Data, b: Data)
    requires CompareData(op, a, b).Ok?
    ensures HasType(CompareData(op, a, b).value, TBool)
  {
  }

  lemma {:induction false} ContainsPreserved(items: seq<Data>, of: Type, element: Expr, scope: Scope, types: map<string, Type>,
                                             env: map<string, Data>,
                         reading: T.Scope, call: Call)
    requires Denotes(scope, types, env, reading, call) && Avoids(element) && forall i :: 0 <= i < |items| ==> HasType(items[i], of)
    requires CanAsk(of, element, TypeOf(element, types, call.types))
    requires Eval(element, env, call.constants).Ok? && Compile(element, scope.Inside(UNNAMED)).Ok?
    requires Build(Compile(element, scope.Inside(UNNAMED)).value, call.parameters, call.constants).Ok?
    ensures var found := EvalContains(items, Eval(element, env, call.constants).value);
            && found.Ok? && HasType(found.value, TBool)
            && T.SomeItem(items, NullTest(Eq, T.Itself(0), TreeOf(element, scope.Inside(UNNAMED), call)), reading)
               == Ok(Bool(found.value.value.truth))
    decreases element, 6, |items|
  {
    hide Denotes, Compile, Build, TypeOf, Eval, T.Evaluate, NullTest, CompareData;
    if items != [] {
      ElementPreserved(items[0], of, element, scope, types, env, reading, call);
      ContainsPreserved(items[1..], of, element, scope, types, env, reading, call);
    }
  }

  /** The parts a `contains` is built of. */
  lemma ContainsParts(e: Expr, scope: Scope, types: map<string, Type>, env: map<string, Data>, reading: T.Scope, call: Call)
    requires Given(e, scope, types, env, reading, call) && e.Contains?
    ensures Compile(e.element, scope.Inside(UNNAMED)).Ok? && SourceOf(e.collection, scope).Ok?
    ensures Build(Compile(e.element, scope.Inside(UNNAMED)).value, call.parameters, call.constants).Ok?
    ensures TreeOf(e, scope, call)
            == T.Tree.Any(SourceOf(e.collection, scope).value, NullTest(Eq, T.Itself(0), TreeOf(e.element, scope.Inside(UNNAMED), call)))
  {
    hide Denotes, Avoids, SourceOf, NullTest, TypeOf, Eval;
    var code := Compile(e.element, scope.Inside(UNNAMED)).value;
    assert Compile(e, scope) == Ok(Code.Any(SourceOf(e.collection, scope).value, Equal(Itself(0), code)));
    assert Build(Itself(0), call.parameters, call.constants) == Ok(T.Itself(0));
    assert Build(Equal(Itself(0), code), call.parameters, call.constants).Ok?;
  }

  lemma ContainsCase(e: Expr, scope: Scope, types: map<string, Type>, env: map<string, Data>, reading: T.Scope, call: Call)
    requires Given(e, scope, types, env, reading, call) && e.Contains?
    ensures Preserved(e, scope, types, env, reading, call)
    decreases e, 1
  {
    hide Denotes, NullTest, T.Evaluate, T.SomeItem, EvalContains, SourceOf, Compile, Build;
    ContainsParts(e, scope, types, env, reading, call);
    DenotesIsWellTyped(scope, types, env, reading, call);
    Typed(e.collection, env, types, call);
    SourceIsThere(e.collection, scope, types, env, reading, call);
    var items, of := Eval(e.collection, env, call.constants).value.items, TypeOf(e.collection, types, call.types).value.of;
    ContainsPreserved(items, of, e.element, scope, types, env, reading, call);
    AnyReads(SourceOf(e.collection, scope).value, NullTest(Eq, T.Itself(0), TreeOf(e.element, scope.Inside(UNNAMED), call)),
             items, Eval(e, env, call.constants).value.value.truth, reading);
  }

  lemma {:induction false} StrippedIsSame(e: Expr, env: map<string, Data>, constants: map<seq<string>, Data>,
                                          types: map<string, Type>, kt: map<seq<string>, Type>)
    ensures Eval(StripKept(e), env, constants) == Eval(e, env, constants)
    ensures TypeOf(StripKept(e), types, kt) == TypeOf(e, types, kt)
  {
    if e.Kept? {
      StrippedIsSame(e.inner, env, constants, types, kt);
    }
  }

  /** What an `Option` asked for what it holds is: the code tests whether it is none, and the
      name given stands for what it holds. */
  lemma HeldMeans(option: Expr, scope: Scope, types: map<string, Type>, env: map<string, Data>, reading: T.Scope, call: Call)
    requires Denotes(scope, types, env, reading, call)
    requires IsOption(TypeOf(option, types, call.types)) && Eval(option, env, call.constants).Ok?
    requires HeldOf(option, scope).Ok? && Build(HeldOf(option, scope).value.1, call.parameters, call.constants).Ok?
    ensures var d, tree := Eval(option, env, call.constants).value,
                           Build(HeldOf(option, scope).value.1, call.parameters, call.constants).value;
            && d.Opt? && HasType(d, TypeOf(option, types, call.types).value) && TypeOf(option, types, call.types).value.Known()
            && T.Nullness(tree, reading) == Ok(d.held.None?)
            && (d.held.Some? ==> Holds(HeldOf(option, scope).value.0, d.held.value, reading, call))
  {
    hide Denotes;
    var e := StripKept(option);
    StrippedIsSame(option, env, call.constants, types, call.types);
    DenotesIsWellTyped(scope, types, env, reading, call);
    Typed(e, env, types, call);
    var d, t := Eval(e, env, call.constants).value, TypeOf(e, types, call.types).value;
    var placed := PlaceOf(e, scope);
    if placed.At? {
      PlaceDenotes(e, scope, types, env, reading, call);
      PlaceMeans(placed.place, d, t, reading, call);
    } else {
      OutsideStands(e, scope, types, env, reading, call);
      OutsideMeans(Outside(e, scope).value, d, t, reading, call);
    }
  }

  /** The parts an `is_some_and`, or an `is_none_or`, is built of. */
  lemma HeldParts(e: Expr, scope: Scope, types: map<string, Type>, env: map<string, Data>, reading: T.Scope, call: Call)
    requires Given(e, scope, types, env, reading, call) && (e.IsSomeAnd? || e.IsNoneOr?)
    ensures IsOption(TypeOf(e.option, types, call.types)) && Eval(e.option, env, call.constants).Ok?
    ensures TypeOf(e, types, call.types) == Some(TBool)
    ensures TypeOf(e.body, types[e.holding := TypeOf(e.option, types, call.types).value.of], call.types) == Some(TBool)
    ensures HeldOf(e.option, scope).Ok? && Build(HeldOf(e.option, scope).value.1, call.parameters, call.constants).Ok?
    ensures Compile(e.body, scope.Holding(e.holding, HeldOf(e.option, scope).value.0)).Ok?
    ensures Build(Compile(e.body, scope.Holding(e.holding, HeldOf(e.option, scope).value.0)).value, call.parameters, call.constants).Ok?
    ensures var tested := Build(HeldOf(e.option, scope).value.1, call.parameters, call.constants).value;
            var body := TreeOf(e.body, scope.Holding(e.holding, HeldOf(e.option, scope).value.0), call);
            TreeOf(e, scope, call) == if e.IsSomeAnd? then T.Tree.And(T.IsNotNull(tested), body) else T.Tree.Or(T.IsNull(tested), body)
  {
    hide Denotes, HeldOf, Avoids;
    assert TypeOf(e, types, call.types) == HeldType(TypeOf(e.option, types, call.types), e.holding, e.body, types, call.types);
    var held := HeldOf(e.option, scope).value;
    var code := Compile(e.body, scope.Holding(e.holding, held.0)).value;
    if e.IsSomeAnd? {
      assert Compile(e, scope) == Ok(Code.And(IsNotNull(held.1), code));
      assert Build(IsNotNull(held.1), call.parameters, call.constants).Ok?;
    } else {
      assert Compile(e, scope) == Ok(Code.Or(IsNull(held.1), code));
      assert Build(IsNull(held.1), call.parameters, call.constants).Ok?;
    }
  }

  lemma HeldCase(e: Expr, scope: Scope, types: map<string, Type>, env: map<string, Data>, reading: T.Scope, call: Call)
    requires Given(e, scope, types, env, reading, call) && (e.IsSomeAnd? || e.IsNoneOr?)
    ensures Preserved(e, scope, types, env, reading, call)
    decreases e, 1
  {
    hide Denotes, HeldOf, T.Nullness, T.Evaluate, Holds, Compile, Build, TypeOf;
    HeldParts(e, scope, types, env, reading, call);
    HeldMeans(e.option, scope, types, env, reading, call);
    var d, t := Eval(e.option, env, call.constants).value, TypeOf(e.option, types, call.types).value;
    var held := HeldOf(e.option, scope).value;
    var inside := scope.Holding(e.holding, held.0);
    var tested := Build(held.1, call.parameters, call.constants).value;
    var test := if e.IsSomeAnd? then T.IsNotNull(tested) else T.IsNull(tested);
    var body := TreeOf(e.body, inside, call);
    TestsNull(tested, d.held.None?, reading);
    if d.held.None? {
      LeftDecides(test, body, e.IsNoneOr?, reading);
    } else {
      HoldingDenotes(scope, types, env, reading, call, e.holding, held.0, t.of, d.held.value);
      Preserves(e.body, inside, types[e.holding := t.of], env[e.holding := d.held.value], reading, call);
      GivenIsTyped(e.body, inside, types[e.holding := t.of], env[e.holding := d.held.value], reading, call);
      RightDecides(test, body, e.IsNoneOr?, Eval(e, env, call.constants).value.value.truth, reading);
    }
  }

  lemma TestsNull(tree: T.Tree, none: bool, reading: T.Scope)
    requires T.Nullness(tree, reading) == Ok(none)
    ensures T.Evaluate(T.IsNull(tree), reading) == Ok(Bool(none)) && T.Evaluate(T.IsNotNull(tree), reading) == Ok(Bool(!none))
  {
  }

  /** The tree of an expression is what the expression is. */
  lemma Preserves(e: Expr, scope: Scope, types: map<string, Type>, env: map<string, Data>, reading: T.Scope, call: Call)
    requires Given(e, scope, types, env, reading, call)
    ensures Preserved(e, scope, types, env, reading, call)
    decreases e, 2
  {
    hide Denotes;
    match e
    case Literal(_) =>
    case NoneLiteral =>
    case SomeOf(_) => SomeCase(e, scope, types, env, reading, call);
    case Name(_) => NamePreserved(e, scope, types, env, reading, call);
    case Constant(_) => NamePreserved(e, scope, types, env, reading, call);
    case Member(_, _) => NamePreserved(e, scope, types, env, reading, call);
    case Wrapped(inner) => Preserves(inner, scope, types, env, reading, call);
    case Block(inner) => Preserves(inner, scope, types, env, reading, call);
    case Kept(inner) => Preserves(inner, scope, types, env, reading, call);
    case Not(_) => NotCase(e, scope, types, env, reading, call);
    case Neg(_) => NegCase(e, scope, types, env, reading, call);
    case And(_, _) => ConnectiveCase(e, scope, types, env, reading, call);
    case Or(_, _) => ConnectiveCase(e, scope, types, env, reading, call);
    case Compare(_, _, _) => CompareCase(e, scope, types, env, reading, call);
    case Compute(_, _, _) => ComputeCase(e, scope, types, env, reading, call);
    case IsNone(_) => NoneCase(e, scope, types, env, reading, call);
    case IsSome(_) => NoneCase(e, scope, types, env, reading, call);
    case Quantified(_, _, _, _, _) => QuantifiedCase(e, scope, types, env, reading, call);
    case Contains(_, _) => ContainsCase(e, scope, types, env, reading, call);
    case IsSomeAnd(_, _, _) => HeldCase(e, scope, types, env, reading, call);
    case IsNoneOr(_, _, _) => HeldCase(e, scope, types, env, reading, call);
  }

  /** A predicate function: its candidate's name and its parameters, of which `options` are
      declared as an `Option`. */
  function OuterScope(candidate: string, options: seq<string>, receiver: bool): Scope {
    Scope.Scope(candidate, [], [], options, receiver)
  }

  /** The whole translation: for every candidate and every call the tree's value is true or
      false, never null, and is what the predicate returns. The types are of this candidate and
      this call: a parameter that is none has a type that says so, and so has whatever holds
      something, which is what lets equalities of `Option`s be told. */
  lemma TranslationPreservesMeaning(body: Expr, candidate: string, options: seq<string>, receiver: bool, subject: Data,
                                    types: map<string, Type>, call: Call)
    requires call.Conforms() && UNNAMED !in types && Avoids(body) && candidate in types
    requires HasType(subject, types[candidate])
    requires types[candidate].Fine() && forall name :: name in types ==> types[name].Known()
    requires forall name :: name in types && name != candidate ==>
               name in call.parameters && HasType(call.parameters[name], types[name]) && (name in options ==> types[name].TOption?)
    requires TypeOf(body, types, call.types) == Some(TBool)
    requires Eval(body, call.parameters[candidate := subject], call.constants).Ok?
    requires var code := Compile(body, OuterScope(candidate, options, receiver));
             code.Ok? && Build(code.value, call.parameters, call.constants).Ok?
    ensures var returned, tree := Eval(body, call.parameters[candidate := subject], call.constants).value,
                                  TreeOf(body, OuterScope(candidate, options, receiver), call);
            && returned.Scalar? && returned.value.Bool?
            && T.Evaluate(tree, T.Scope.Scope(subject, [])) == Ok(returned.value)
            && T.IsSatisfiedBy(tree, subject) == Ok(returned.value.truth)
  {
    hide Eval, TypeOf, Compile, Build;
    var scope, reading := OuterScope(candidate, options, receiver), T.Scope.Scope(subject, []);
    var env := call.parameters[candidate := subject];
    forall name | name in types
      ensures Named(scope, name, types[name], env[name], reading, call)
    {
      assert scope.BaseOf(name) == if name == candidate then TheCandidate else Other;
    }
    Preserves(body, scope, types, env, reading, call);
    GivenIsTyped(body, scope, types, env, reading, call);
  }

  // Where the comparison is of two optional values.

  /** A parameter or a constant that is none: its tree is the null constant. */
  predicate IsNullConstant(e: Expr, scope: Scope, d: Data) {
    IsOutside(e, scope) && d == Opt(None)
  }

  /** Where a comparison of two `Option`s and its tree agree. */
  predicate Agrees(op: Comparison, left: Expr, right: Expr, a: Data, b: Data, scope: Scope)
    requires a.Opt? && b.Opt?
  {
    || (a.held.Some? && b.held.Some?)
    || (!IsOrder(op) && (IsNullConstant(left, scope, a) || IsNullConstant(right, scope, b)))
  }

  lemma OptionSide(e: Expr, scope: Scope, types: map<string, Type>, env: map<string, Data>, reading: T.Scope, call: Call)
    requires Given(e, scope, types, env, reading, call) && IsOption(TypeOf(e, types, call.types))
    ensures var d, of := Eval(e, env, call.constants).value, TypeOf(e, types, call.types).value.of;
            && HasType(d, TOption(of, Unsure)) && Means(TreeOf(e, scope, call), d, TOption(of, Unsure), reading)
            && (TreeOf(e, scope, call) == T.Tree.Constant(Null) <==> IsNullConstant(e, scope, d))
  {
    hide Denotes, TypeOf, Eval, Compile, Build;
    Preserves(e, scope, types, env, reading, call);
    GivenIsTyped(e, scope, types, env, reading, call);
    Unsured(Eval(e, env, call.constants).value, TypeOf(e, types, call.types).value, TreeOf(e, scope, call), reading);
    NullConstant(e, scope, types, env, reading, call);
  }

  lemma ComparisonParts(e: Expr, scope: Scope, call: Call)
    requires e.Compare? && Compile(e, scope).Ok? && Build(Compile(e, scope).value, call.parameters, call.constants).Ok?
    ensures Compile(e.left, scope).Ok? && Build(Compile(e.left, scope).value, call.parameters, call.constants).Ok?
    ensures Compile(e.right, scope).Ok? && Build(Compile(e.right, scope).value, call.parameters, call.constants).Ok?
    ensures var l, r := TreeOf(e.left, scope, call), TreeOf(e.right, scope, call);
            TreeOf(e, scope, call) == if IsOrder(e.op) then T.Tree.Compare(e.op, l, r) else NullTest(e.op, l, r)
  {
    hide NullTest, IsSeenOption;
  }

  /** A comparison of two `Option`s, wherever it stands in a predicate: its tree is what Rust has
      where both hold something, and of an equality also where one side is a parameter, or a
      constant, that is none. Everywhere else the tree is null, and Rust has a truth value. */
  lemma OptionalComparison(e: Expr, scope: Scope, types: map<string, Type>, env: map<string, Data>, reading: T.Scope, call: Call)
    requires Denotes(scope, types, env, reading, call) && Avoids(e) && e.Compare?
    requires IsOption(TypeOf(e.left, types, call.types)) && IsOption(TypeOf(e.right, types, call.types))
    requires TypeOf(e.left, types, call.types).value.of == TypeOf(e.right, types, call.types).value.of
    requires TypeOf(e.left, types, call.types).value.of.IsScalar()
    requires Eval(e.left, env, call.constants).Ok? && Eval(e.right, env, call.constants).Ok?
    requires Compile(e, scope).Ok? && Build(Compile(e, scope).value, call.parameters, call.constants).Ok?
    ensures Eval(e.left, env, call.constants).value.Opt? && Eval(e.right, env, call.constants).value.Opt?
    ensures Eval(e, env, call.constants).Ok? && HasType(Eval(e, env, call.constants).value, TBool)
    ensures var a, b := Eval(e.left, env, call.constants).value, Eval(e.right, env, call.constants).value;
            T.Evaluate(TreeOf(e, scope, call), reading)
            == Ok(if Agrees(e.op, e.left, e.right, a, b, scope) then Eval(e, env, call.constants).value.value else Null)
  {
    hide Denotes, TypeOf, Compile, Build, NullTest, CompareData, Means, T.Evaluate, IsOutside;
    ComparisonParts(e, scope, call);
    OptionSide(e.left, scope, types, env, reading, call);
    OptionSide(e.right, scope, types, env, reading, call);
    var a, b := Eval(e.left, env, call.constants).value, Eval(e.right, env, call.constants).value;
    var l, r, of := TreeOf(e.left, scope, call), TreeOf(e.right, scope, call), TypeOf(e.left, types, call.types).value.of;
    assert Eval(e, env, call.constants) == CompareData(e.op, a, b);
    if IsOrder(e.op) {
      OptionsCompared(e.op, a, b, of, l, r, reading);
    } else {
      OptionalEquality(e.op, a, b, of, l, r, reading);
    }
  }

  // Two such predicates, which the macro takes: not of `u.a == Some(5)`, and `u.a < u.b`.

  const LOST := Expr.Not(Compare(Eq, Member(Name("u"), "a"), SomeOf(Literal(Int(5)))))

  const LOST_TREE := T.Tree.Not(T.Tree.Compare(Eq, MemberTree("a"), T.Tree.Constant(Int(5))))

  const LOST_ORDER := Compare(Lt, Member(Name("u"), "a"), Member(Name("u"), "b"))

  const LOST_ORDER_TREE := T.Tree.Compare(Lt, MemberTree("a"), MemberTree("b"))

  function MemberTree(name: string): T.Tree {
    T.Field(T.Path(T.Global, [], name))
  }

  function Translated(e: Expr): Outcome<T.Tree> {
    match Compile(e, OuterScope("u", [], false))
    case Ok(code) => Build(code, map[], map[])
    case Failed => Failed
  }

  lemma MemberTranslates(name: string)
    ensures Compile(Member(Name("u"), name), OuterScope("u", [], false)) == Ok(Code.Field(T.Path(T.Global, [], name)))
    ensures Build(Code.Field(T.Path(T.Global, [], name)), map[], map[]) == Ok(MemberTree(name))
  {
    assert ChainOf(Member(Name("u"), name)) == Chained("u", [name]);
    assert Place(T.Global, [name]).Path() == Some(T.Path(T.Global, [], name));
  }

  lemma MemberIsRead(name: string, fields: map<string, Data>)
    requires name in fields
    ensures Eval(Member(Name("u"), name), map["u" := Object(fields)], map[]) == Ok(fields[name])
    ensures T.Evaluate(MemberTree(name), T.Scope.Scope(Object(fields), [])) == T.ValueOf(fields[name])
  {
    assert T.MemberOf(T.Path(T.Global, [], name), T.Scope.Scope(Object(fields), [])) == Ok(fields[name]);
  }

  const LOST_CODE := Code.Not(Code.Equal(Code.Field(T.Path(T.Global, [], "a")), Code.Constant(Int(5))))

  lemma LostCompiles()
    ensures Compile(LOST, OuterScope("u", [], false)) == Ok(LOST_CODE)
  {
    hide Build, NullTest, IsSeenOption, NameCode;
    var scope := OuterScope("u", [], false);
    MemberTranslates("a");
    assert Compile(SomeOf(Literal(Int(5))), scope) == Ok(Code.Constant(Int(5)));
    assert Compile(LOST.inner, scope) == Ok(LOST_CODE.inner);
  }

  lemma LostTranslates()
    ensures Translated(LOST) == Ok(LOST_TREE)
  {
    hide Compile;
    LostCompiles();
    MemberTranslates("a");
    assert Build(Code.Constant(Int(5)), map[], map[]) == Ok(T.Tree.Constant(Int(5)));
    assert Build(LOST_CODE.inner, map[], map[]) == Ok(LOST_TREE.inner);
  }

  lemma LostInRust(subject: Data)
    requires subject == Object(map["a" := Opt(None)])
    ensures Eval(LOST, map["u" := subject], map[]) == Truth(true)
  {
    hide Compile, Build, T.Evaluate;
    var env := map["u" := subject];
    assert Eval(LOST.inner.left, env, map[]) == Ok(Opt(None));
    assert Eval(SomeOf(Literal(Int(5))), env, map[]) == Ok(Opt(Some(Scalar(Int(5)))));
    assert Eval(LOST.inner, env, map[]) == Truth(false);
  }

  /** Of a null nothing is known, compared with whatever there is. */
  lemma NullIsLost(op: Comparison, left: T.Tree, right: T.Tree, reading: T.Scope)
    requires T.Evaluate(left, reading) == Ok(Null) && (right.Constant? || T.Evaluate(right, reading).Ok?)
    ensures T.Evaluate(T.Tree.Compare(op, left, right), reading) == Ok(Null)
    ensures T.IsSatisfiedBy(T.Tree.Compare(op, left, right), reading.candidate) == Ok(false) || reading.items != []
  {
  }

  lemma UnknownStays(tree: T.Tree, reading: T.Scope)
    requires T.Evaluate(tree, reading) == Ok(Null) && reading.items == []
    ensures T.Evaluate(T.Tree.Not(tree), reading) == Ok(Null) && T.IsSatisfiedBy(T.Tree.Not(tree), reading.candidate) == Ok(false)
  {
  }

  /** Of a candidate whose `a` is none Rust returns true; the tree is null, and the candidate
      is not found. */
  lemma OptionalEqualityIsLost(subject: Data)
    requires subject == Object(map["a" := Opt(None)])
    ensures Eval(LOST, map["u" := subject], map[]) == Truth(true)
    ensures Translated(LOST) == Ok(LOST_TREE) && T.Evaluate(LOST_TREE, T.Scope.Scope(subject, [])) == Ok(Null)
    ensures T.IsSatisfiedBy(LOST_TREE, subject) == Ok(false)
  {
    hide Translated, T.Evaluate, Eval;
    LostTranslates();
    LostInRust(subject);
    MemberIsRead("a", subject.fields);
    var reading := T.Scope.Scope(subject, []);
    NullIsLost(Eq, MemberTree("a"), T.Tree.Constant(Int(5)), reading);
    UnknownStays(LOST_TREE.inner, reading);
  }

  lemma LostOrderTranslates()
    ensures Translated(LOST_ORDER) == Ok(LOST_ORDER_TREE)
  {
    MemberTranslates("a");
    MemberTranslates("b");
  }

  lemma LostOrderInRust(subject: Data)
    requires subject == Object(map["a" := Opt(None), "b" := Opt(Some(Scalar(Int(5))))])
    ensures Eval(LOST_ORDER, map["u" := subject], map[]) == Truth(true)
  {
    hide Compile, Build, T.Evaluate;
    MemberIsRead("a", subject.fields);
    MemberIsRead("b", subject.fields);
    assert CompareData(Lt, Opt(None), Opt(Some(Scalar(Int(5))))) == Truth(true);
  }

  /** And of one whose `a` is none and whose `b` is not, though a none is the least. */
  lemma OptionalOrderIsLost(subject: Data)
    requires subject == Object(map["a" := Opt(None), "b" := Opt(Some(Scalar(Int(5))))])
    ensures Eval(LOST_ORDER, map["u" := subject], map[]) == Truth(true)
    ensures Translated(LOST_ORDER) == Ok(LOST_ORDER_TREE) && T.Evaluate(LOST_ORDER_TREE, T.Scope.Scope(subject, [])) == Ok(Null)
    ensures T.IsSatisfiedBy(LOST_ORDER_TREE, subject) == Ok(false)
  {
    hide Translated, T.Evaluate, Eval;
    LostOrderTranslates();
    LostOrderInRust(subject);
    MemberIsRead("a", subject.fields);
    MemberIsRead("b", subject.fields);
    NullIsLost(Lt, MemberTree("a"), MemberTree("b"), T.Scope.Scope(subject, []));
  }

  // And one that is told: `u.a == p`, of a parameter `p` that is none.

  const TOLD := Compare(Eq, Member(Name("u"), "a"), Name("p"))

  lemma ToldInRust(subject: Data)
    requires subject.Object? && "a" in subject.fields && subject.fields["a"].Opt?
    ensures Eval(TOLD, map["p" := Opt(None), "u" := subject], map[]) == Truth(subject.fields["a"] == Opt(None))
  {
    hide Compile, Build, T.Evaluate;
    var env := map["p" := Opt(None), "u" := subject];
    assert Eval(TOLD.left, env, map[]) == Ok(subject.fields["a"]) && Eval(TOLD.right, env, map[]) == Ok(Opt(None));
  }

  lemma ToldIsTyped(a: Type, p: Type)
    requires a.TOption? && a.of.IsScalar() && p == TOption(a.of, ThatNone)
    ensures TypeOf(TOLD, map["u" := TObject(map["a" := a]), "p" := p], map[]) == Some(TBool)
  {
    hide Compile, Build, Eval, T.Evaluate;
    var types := map["u" := TObject(map["a" := a]), "p" := p];
    assert TypeOf(Name("u"), types, map[]) == Some(types["u"]);
    assert TypeOf(TOLD.left, types, map[]) == Some(a) && TypeOf(TOLD.right, types, map[]) == Some(p);
  }

  /** Such a call finds exactly the candidates whose `a` is none. */
  lemma AbsentParameterFindsNone(subject: Data, of: Type, tree: T.Tree)
    requires of.IsScalar() && subject.Object? && "a" in subject.fields && HasType(subject.fields["a"], TOption(of, Unsure))
    requires var code := Compile(TOLD, OuterScope("u", ["p"], false));
             code.Ok? && Build(code.value, map["p" := Opt(None)], map[]) == Ok(tree)
    ensures T.IsSatisfiedBy(tree, subject) == Ok(subject.fields["a"].held.None?)
  {
    hide Eval, TypeOf, Compile, Build, T.Evaluate, T.IsSatisfiedBy;
    var call := Call(map["p" := Opt(None)], map[], map[]);
    var types := map["u" := TObject(map["a" := TOption(of, Unsure)]), "p" := TOption(of, ThatNone)];
    assert call.parameters["u" := subject] == map["p" := Opt(None), "u" := subject];
    ToldInRust(subject);
    ToldIsTyped(TOption(of, Unsure), TOption(of, ThatNone));
    assert |UNNAMED| > 1;
    TranslationPreservesMeaning(TOLD, "u", ["p"], false, subject, types, call);
  }
}
