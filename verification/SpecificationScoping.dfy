/** Scoping is preserved: at any nesting of collections and held names, whatever shadows what,
    the path the translation gives a name denotes what the name stands for in Rust. */
module SpecificationScoping {
  import opened Options
  import opened SpecificationSource
  import opened SpecificationTranslate
  import T = SpecificationTree

  /** A call of the predicate and of its tree function: the parameters, and the constants that
      paths of several segments name. */
  datatype Call = Call(parameters: map<string, Data>, constants: map<seq<string>, Data>, types: map<seq<string>, Type>)
  {
    ghost predicate Conforms() {
      forall c :: c in types ==> c in constants && types[c].IsValue() && HasType(constants[c], types[c])
    }
  }

  /** What the names lead to, through objects and the `Option`s that hold them. */
  function Follow(d: Data, names: seq<string>): (r: Outcome<Data>)
    decreases |names|
  {
    if names == [] then Ok(d)
    else match T.ObjectOf(d)
      case Ok(fields) => if names[0] in fields then Follow(fields[names[0]], names[1..]) else Failed
      case Failed => Failed
  }

  /** What a place denotes where the tree is read. */
  function PlaceData(place: Place, reading: T.Scope): (r: Outcome<Data>) {
    match reading.RootOf(place.root)
    case Ok(d) => Follow(d, place.names)
    case Failed => Failed
  }

  lemma {:induction false} FollowSplits(d: Data, names: seq<string>, more: seq<string>)
    ensures Follow(d, names + more) == match Follow(d, names) case Ok(x) => Follow(x, more) case Failed => Failed
    decreases |names|
  {
    if names == [] {
      assert names + more == more;
    } else {
      assert (names + more)[0] == names[0] && (names + more)[1..] == names[1..] + more;
      match T.ObjectOf(d)
      case Failed =>
      case Ok(fields) =>
        if names[0] in fields {
          FollowSplits(fields[names[0]], names[1..], more);
        }
    }
  }

  lemma {:induction false} WalkIsFollow(d: Data, names: seq<string>)
    ensures T.Walk(d, names) == match Follow(d, names) case Ok(x) => T.ObjectOf(x) case Failed => Failed
    decreases |names|
  {
    if names != [] {
      match T.ObjectOf(d)
      case Failed =>
      case Ok(fields) =>
        if names[0] in fields {
          WalkIsFollow(fields[names[0]], names[1..]);
        }
    }
  }

  /** A path reads what its place denotes. */
  lemma PathReads(place: Place, reading: T.Scope)
    requires place.names != []
    ensures T.MemberOf(place.Path().value, reading) == PlaceData(place, reading)
  {
    var names := place.names;
    var last := names[|names| - 1];
    match reading.RootOf(place.root)
    case Failed =>
    case Ok(d) =>
      WalkIsFollow(d, names[..|names| - 1]);
      assert names == names[..|names| - 1] + [last];
      FollowSplits(d, names[..|names| - 1], [last]);
      match Follow(d, names[..|names| - 1])
      case Failed =>
      case Ok(x) =>
        assert Follow(x, [last]) == (match T.ObjectOf(x)
                                     case Ok(fields) => if last in fields then Ok(fields[last]) else Failed
                                     case Failed => Failed);
  }

  /** The name stands for `d`, in Rust and where the tree is read. */
  ghost predicate Stands(scope: Scope, name: string, d: Data, reading: T.Scope, call: Call) {
    match scope.BaseOf(name)
    case TheCandidate => d == reading.candidate
    case AnItem(up) => up < |reading.items| && reading.items[up] == d
    case HeldMember(place) => PlaceData(place, reading) == Ok(Opt(Some(d)))
    case HeldOutside(e) => Eval(e, call.parameters, call.constants) == Ok(Opt(Some(d)))
    case Other => name in call.parameters && call.parameters[name] == d
  }

  /** An item is a value or an object, what is held no `Option`, and a parameter seen to be
      one is. */
  ghost predicate TypesAgree(scope: Scope, name: string, t: Type) {
    match scope.BaseOf(name)
    case HeldMember(_) => t.IsScalar() || t.TObject?
    case HeldOutside(_) => t.IsScalar() || t.TObject?
    case AnItem(_) => t.IsValue() || t.TObject?
    case Other => name in scope.options ==> t.TOption?
    case _ => true
  }

  /** The name has its type, and the translation's scope says what it stands for; only of a
      parameter is anything known to be none. */
  ghost predicate Named(scope: Scope, name: string, t: Type, d: Data, reading: T.Scope, call: Call) {
    && HasType(d, t) && (t.Fine() || (t.Known() && scope.BaseOf(name).Other?))
    && Stands(scope, name, d, reading, call) && TypesAgree(scope, name, t)
  }

  ghost predicate Denotes(scope: Scope, types: map<string, Type>, env: map<string, Data>, reading: T.Scope, call: Call) {
    && call.Conforms() && UNNAMED !in types
    && forall name :: name in types ==> name in env && Named(scope, name, types[name], env[name], reading, call)
  }

  // A collection.

  lemma {:induction false} LatestInside(held: seq<Binding>, item: string, name: string)
    ensures name == item ==> Latest(HeldInside(held, item), name) == None
    ensures name != item ==>
              Latest(HeldInside(held, item), name)
              == match Latest(held, name)
                 case None => None
                 case Some(OfMember(place)) => Some(OfMember(place.FurtherIn()))
                 case Some(outside) => Some(outside)
  {
    if held != [] {
      var init, last := held[..|held| - 1], held[|held| - 1];
      HeldInsideSnoc(init, last, item);
      assert held == init + [last];
      LatestInside(init, item, name);
      LatestSnoc(init, last, name);
      var moved := MovedIn(last, item);
      if moved == [] {
        assert HeldInside(init, item) + moved == HeldInside(init, item);
      } else {
        LatestSnoc(HeldInside(init, item), moved[0], name);
        assert moved == [moved[0]];
      }
    }
  }

  lemma LatestSnoc(init: seq<Binding>, last: Binding, name: string)
    ensures Latest(init + [last], name) == if last.name == name then Some(last.held) else Latest(init, name)
  {
    assert (init + [last])[..|init + [last]| - 1] == init;
  }

  function MovedIn(b: Binding, item: string): seq<Binding> {
    if b.name == item then []
    else [Binding(b.name, if b.held.OfMember? then OfMember(b.held.place.FurtherIn()) else b.held)]
  }

  lemma {:induction false} HeldInsideSnoc(init: seq<Binding>, last: Binding, item: string)
    ensures HeldInside(init + [last], item) == HeldInside(init, item) + MovedIn(last, item)
  {
    if init != [] {
      assert (init + [last])[0] == init[0] && (init + [last])[1..] == init[1..] + [last];
      HeldInsideSnoc(init[1..], last, item);
    }
  }

  lemma StepsOutInside(items: seq<string>, item: string, name: string)
    ensures StepsOut(items + [item], name)
            == if name == item then Some(0) else match StepsOut(items, name) case None => None case Some(up) => Some(up + 1)
  {
    assert (items + [item])[..|items + [item]| - 1] == items;
  }

  /** One collection further in, a place denotes what it did. */
  lemma FurtherInDenotes(place: Place, reading: T.Scope, element: Data)
    ensures PlaceData(place.FurtherIn(), reading.Inside(element)) == PlaceData(place, reading)
  {
  }

  /** Where a name other than the item's is, seen from inside the collection. */
  lemma BaseInside(scope: Scope, item: string, name: string)
    requires name != item
    ensures scope.Inside(item).BaseOf(name)
            == match scope.BaseOf(name)
               case HeldMember(place) => HeldMember(place.FurtherIn())
               case AnItem(up) => AnItem(up + 1)
               case other => other
  {
    hide HeldInside, Latest, StepsOut;
    LatestInside(scope.held, item, name);
    StepsOutInside(scope.items, item, name);
  }

  lemma OthersStandInside(scope: Scope, item: string, name: string, t: Type, d: Data, reading: T.Scope, element: Data, call: Call)
    requires name != item && Named(scope, name, t, d, reading, call)
    ensures Named(scope.Inside(item), name, t, d, reading.Inside(element), call)
  {
    hide HasType, Type.Fine, Type.Known, Scope.BaseOf, HeldInside, PlaceData;
    BaseInside(scope, item, name);
    match scope.BaseOf(name)
    case HeldMember(place) => FurtherInDenotes(place, reading, element);
    case _ =>
  }

  lemma ItemStandsInside(scope: Scope, item: string, t: Type, reading: T.Scope, element: Data, call: Call)
    requires HasType(element, t) && t.Fine() && (t.IsValue() || t.TObject?)
    ensures Named(scope.Inside(item), item, t, element, reading.Inside(element), call)
  {
    hide HasType, Type.Fine, Type.Known;
    LatestInside(scope.held, item, item);
    StepsOutInside(scope.items, item, item);
  }

  /** Inside a collection's predicate: the item is the nearest of its name, everything else is
      where it was, one step further out. */
  lemma InsideDenotes(scope: Scope, types: map<string, Type>, env: map<string, Data>, reading: T.Scope, call: Call,
                      item: string, t: Type, element: Data)
    requires Denotes(scope, types, env, reading, call) && HasType(element, t) && t.Fine() && item != UNNAMED
    requires t.IsValue() || t.TObject?
    ensures Denotes(scope.Inside(item), types[item := t], env[item := element], reading.Inside(element), call)
  {
    hide Named, HasType, Type.Fine, Type.Known;
    forall name | name in types && name != item
      ensures Named(scope.Inside(item), name, types[name], env[name], reading.Inside(element), call)
    {
      OthersStandInside(scope, item, name, types[name], env[name], reading, element, call);
    }
    ItemStandsInside(scope, item, t, reading, element, call);
  }

  /** And where the collection's element has no name. */
  lemma InsideUnnamedDenotes(scope: Scope, types: map<string, Type>, env: map<string, Data>, reading: T.Scope, call: Call, element: Data)
    requires Denotes(scope, types, env, reading, call)
    ensures Denotes(scope.Inside(UNNAMED), types, env, reading.Inside(element), call)
  {
    hide Named;
    forall name | name in types
      ensures Named(scope.Inside(UNNAMED), name, types[name], env[name], reading.Inside(element), call)
    {
      OthersStandInside(scope, UNNAMED, name, types[name], env[name], reading, element, call);
    }
  }

  // What an `Option` holds.

  /** The `Option` behind `held` holds `d`. */
  ghost predicate Holds(held: Held, d: Data, reading: T.Scope, call: Call) {
    match held
    case OfMember(place) => PlaceData(place, reading) == Ok(Opt(Some(d)))
    case OfOutside(e) => Eval(e, call.parameters, call.constants) == Ok(Opt(Some(d)))
  }

  lemma OthersStandHolding(scope: Scope, name: string, held: Held, other: string, t: Type, d: Data, reading: T.Scope, call: Call)
    requires other != name && Named(scope, other, t, d, reading, call)
    ensures Named(scope.Holding(name, held), other, t, d, reading, call)
  {
    hide HasType, Type.Fine, Type.Known;
    LatestSnoc(scope.held, Binding(name, held), other);
    assert scope.Holding(name, held).BaseOf(other) == scope.BaseOf(other);
  }

  /** A closure over an `Option`'s content binds a name that shadows every other of that name. */
  lemma HoldingDenotes(scope: Scope, types: map<string, Type>, env: map<string, Data>, reading: T.Scope, call: Call,
                       name: string, held: Held, t: Type, d: Data)
    requires Denotes(scope, types, env, reading, call) && HasType(d, t) && t.Fine() && name != UNNAMED
    requires Holds(held, d, reading, call) && (t.IsScalar() || t.TObject?)
    ensures Denotes(scope.Holding(name, held), types[name := t], env[name := d], reading, call)
  {
    assert Named(scope.Holding(name, held), name, t, d, reading, call) by {
      hide HasType, Type.Fine, Type.Known;
      LatestSnoc(scope.held, Binding(name, held), name);
    }
    hide Named, HasType, Type.Fine, Type.Known;
    forall other | other in types && other != name
      ensures Named(scope.Holding(name, held), other, types[other], env[other], reading, call)
    {
      OthersStandHolding(scope, name, held, other, types[other], env[other], reading, call);
    }
  }

  // A chain of names.

  /** What a chain of members leads to in Rust, which unwraps nothing. */
  function Dig(d: Data, names: seq<string>): (r: Outcome<Data>)
    decreases |names|
  {
    if names == [] then Ok(d)
    else match FieldOf(d, names[0])
      case Ok(x) => Dig(x, names[1..])
      case Failed => Failed
  }

  lemma {:induction false} DigSplits(d: Data, names: seq<string>, last: string)
    ensures Dig(d, names + [last]) == match Dig(d, names) case Ok(x) => FieldOf(x, last) case Failed => Failed
    decreases |names|
  {
    if names == [] {
      match FieldOf(d, last)
      case Ok(x) => assert Dig(d, [last]) == Dig(x, [last][1..]);
      case Failed =>
    } else {
      assert (names + [last])[0] == names[0] && (names + [last])[1..] == names[1..] + [last];
      match FieldOf(d, names[0])
      case Ok(x) => DigSplits(x, names[1..], last);
      case Failed =>
    }
  }

  lemma {:induction false} DigIsFollow(d: Data, names: seq<string>)
    requires Dig(d, names).Ok?
    ensures Follow(d, names) == Dig(d, names)
    ensures names != [] ==> Follow(Opt(Some(d)), names) == Dig(d, names)
    decreases |names|
  {
    if names != [] {
      DigIsFollow(FieldOf(d, names[0]).value, names[1..]);
    }
  }

  /** A chain evaluates to what its names lead to from what its base stands for. */
  lemma {:induction false} ChainEvaluates(e: Expr, env: map<string, Data>, constants: map<seq<string>, Data>)
    requires ChainOf(e).Chained?
    ensures var chain := ChainOf(e);
            Eval(e, env, constants) == if chain.base in env then Dig(env[chain.base], chain.names) else Failed
  {
    match e
    case Wrapped(inner) => ChainEvaluates(inner, env, constants);
    case Member(base, name) =>
      ChainEvaluates(base, env, constants);
      var chain := ChainOf(base);
      if chain.base in env {
        DigSplits(env[chain.base], chain.names, name);
      }
    case Name(_) =>
  }

  /** A constant is one whatever is in scope. */
  lemma {:induction false} ElsewhereEvaluates(e: Expr, env: map<string, Data>, other: map<string, Data>, constants: map<seq<string>, Data>)
    requires ChainOf(e).Elsewhere?
    ensures Eval(e, env, constants) == Eval(e, other, constants)
  {
    match e
    case Wrapped(inner) => ElsewhereEvaluates(inner, env, other, constants);
    case Member(base, _) => ElsewhereEvaluates(base, env, other, constants);
    case Constant(_) =>
  }

  /** The base of a chain that has a type has one. */
  lemma {:induction false} ChainIsTyped(e: Expr, types: map<string, Type>, constants: map<seq<string>, Type>)
    requires ChainOf(e).Chained? && TypeOf(e, types, constants).Some?
    ensures ChainOf(e).base in types
    ensures ChainOf(e).names == [] ==> TypeOf(e, types, constants) == Some(types[ChainOf(e).base])
  {
    match e
    case Wrapped(inner) => ChainIsTyped(inner, types, constants);
    case Member(base, _) => ChainIsTyped(base, types, constants);
    case Name(_) =>
  }

  /** Members of what has nothing known to be none have nothing. */
  lemma {:induction false} ChainIsFine(e: Expr, types: map<string, Type>, constants: map<seq<string>, Type>)
    requires ChainOf(e).Chained? && TypeOf(e, types, constants).Some? && ChainOf(e).base in types && types[ChainOf(e).base].Fine()
    ensures TypeOf(e, types, constants).value.Fine()
  {
    match e
    case Wrapped(inner) => ChainIsFine(inner, types, constants);
    case Member(base, _) => ChainIsFine(base, types, constants);
    case Name(_) =>
  }

  /** The place the translation finds for a chain denotes what the chain is in Rust, or, of a
      name a closure gave to what an `Option` holds, that `Option`. */
  lemma PlaceDenotes(e: Expr, scope: Scope, types: map<string, Type>, env: map<string, Data>, reading: T.Scope, call: Call)
    requires Denotes(scope, types, env, reading, call)
    requires TypeOf(e, types, call.types).Some? && Eval(e, env, call.constants).Ok? && PlaceOf(e, scope).At?
    ensures var place, d, t := PlaceOf(e, scope).place, Eval(e, env, call.constants).value, TypeOf(e, types, call.types).value;
            || PlaceData(place, reading) == Ok(d)
            || (PlaceData(place, reading) == Ok(Opt(Some(d))) && (t.IsScalar() || t.TObject?))
    ensures var place, t := PlaceOf(e, scope).place, TypeOf(e, types, call.types).value;
            place.names == [] && place.root.Item? ==> t.IsValue() || t.TObject?
  {
    ChainEvaluates(e, env, call.constants);
    ChainIsTyped(e, types, call.types);
    var chain := ChainOf(e);
    assert Named(scope, chain.base, types[chain.base], env[chain.base], reading, call);
    DigIsFollow(env[chain.base], chain.names);
    var base := scope.BaseOf(chain.base);
    if base.HeldMember? {
      var root := reading.RootOf(base.place.root).value;
      FollowSplits(root, base.place.names, chain.names);
    }
  }

  /** What the tree function writes for a value from outside is that value, or the parameter
      that holds it. */
  lemma OutsideStands(e: Expr, scope: Scope, types: map<string, Type>, env: map<string, Data>, reading: T.Scope, call: Call)
    requires Denotes(scope, types, env, reading, call)
    requires TypeOf(e, types, call.types).Some? && Eval(e, env, call.constants).Ok?
    requires PlaceOf(e, scope).OutOfPlace? && Outside(e, scope).Ok?
    ensures var outside, d, t := Outside(e, scope).value, Eval(e, env, call.constants).value, TypeOf(e, types, call.types).value;
            || Eval(outside, call.parameters, call.constants) == Ok(d)
            || (Eval(outside, call.parameters, call.constants) == Ok(Opt(Some(d))) && (t.IsScalar() || t.TObject?))
  {
    var chain := ChainOf(e);
    if chain.Chained? {
      ChainEvaluates(e, env, call.constants);
      ChainIsTyped(e, types, call.types);
      assert Named(scope, chain.base, types[chain.base], env[chain.base], reading, call);
      if scope.BaseOf(chain.base).Other? {
        ChainEvaluates(e, call.parameters, call.constants);
      }
    } else {
      ElsewhereEvaluates(e, env, call.parameters, call.constants);
    }
  }
}
