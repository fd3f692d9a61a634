/** A printer of JSON that gives equal values equal texts and different ones different texts: it
    leaves no space between tokens, and sorts the fields of an object by key. */
module CanonicalJson {
  import opened Decimals

  /** A JSON value without floats. An object's fields are in the order they were built. */
  datatype Json = Null | Bool(truth: bool) | Number(number: int) | Text(text: string) | Array(items: seq<Json>)
                | Object(fields: seq<(string, Json)>)

  predicate HasKey(fields: seq<(string, Json)>, key: string) {
    exists i :: 0 <= i < |fields| && fields[i].0 == key
  }

  /** No key twice, at any depth: what a map keeps. */
  predicate Valid(v: Json) {
    match v
    case Array(items) => forall i | 0 <= i < |items| :: Valid(items[i])
    case Object(fields) =>
      && (forall i, j :: 0 <= i < j < |fields| ==> fields[i].0 != fields[j].0)
      && (forall i | 0 <= i < |fields| :: Valid(fields[i].1))
    case _ => true
  }

  function IndexOf(fields: seq<(string, Json)>, key: string): (i: nat)
    requires HasKey(fields, key)
    ensures i < |fields| && fields[i].0 == key
  {
    if fields[0].0 == key then 0 else
      assert HasKey(fields[1..], key) by {
        var i :| 0 <= i < |fields| && fields[i].0 == key;
        assert fields[1..][i - 1] == fields[i];
      }
      1 + IndexOf(fields[1..], key)
  }

  /** The value of a key. */
  function ValueOf(o: Json, key: string): (v: Json)
    requires o.Object? && HasKey(o.fields, key)
    ensures v < o && (Valid(o) ==> Valid(v))
  {
    assert o.fields[IndexOf(o.fields, key)] in o.fields;
    o.fields[IndexOf(o.fields, key)].1
  }

  /** The same value: fields are compared by their keys, in whatever order. */
  predicate Same(v: Json, w: Json)
    decreases v
  {
    match v
    case Array(items) => w.Array? && |w.items| == |items| && forall i | 0 <= i < |items| :: Same(items[i], w.items[i])
    case Object(fields) =>
      && w.Object? && (forall i | 0 <= i < |w.fields| :: HasKey(fields, w.fields[i].0))
      && (forall i | 0 <= i < |fields| :: HasKey(w.fields, fields[i].0) && Same(fields[i].1, ValueOf(w, fields[i].0)))
    case _ => v == w
  }

  // Keys in order, by their characters.

  predicate Before(a: string, b: string) {
    b != [] && (a == [] || a[0] < b[0] || (a[0] == b[0] && Before(a[1..], b[1..])))
  }

  predicate Ascends(keys: seq<string>) {
    forall i, j :: 0 <= i < j < |keys| ==> Before(keys[i], keys[j])
  }

  lemma {:induction false} BeforeIsTotal(a: string, b: string)
    ensures a == b || Before(a, b) || Before(b, a)
  {
    if a != [] && b != [] && a[0] == b[0] {
      BeforeIsTotal(a[1..], b[1..]);
      assert a == [a[0]] + a[1..] && b == [b[0]] + b[1..];
    }
  }

  lemma {:induction false} BeforeIsStrict(a: string, b: string)
    ensures !(Before(a, b) && Before(b, a)) && !Before(a, a)
  {
    if a != [] {
      BeforeIsStrict(a[1..], if b != [] then b[1..] else []);
    }
  }

  lemma {:induction false} BeforeChains(a: string, b: string, c: string)
    requires Before(a, b) && Before(b, c)
    ensures Before(a, c)
  {
    if a != [] && a[0] == b[0] == c[0] {
      BeforeChains(a[1..], b[1..], c[1..]);
    }
  }

  /** A key put in its place among keys in order; once if it is there. */
  function Insert(key: string, keys: seq<string>): (r: seq<string>)
    ensures forall k :: k in r <==> k == key || k in keys
  {
    if keys == [] then [key]
    else if key == keys[0] then keys
    else if Before(key, keys[0]) then [key] + keys
    else [keys[0]] + Insert(key, keys[1..])
  }

  lemma {:induction false} InsertAscends(key: string, keys: seq<string>)
    requires Ascends(keys)
    ensures Ascends(Insert(key, keys))
  {
    if keys != [] && key != keys[0] {
      BeforeIsTotal(key, keys[0]);
      if Before(key, keys[0]) {
        forall j | 0 < j < |keys|
          ensures Before(key, keys[j])
        {
          BeforeChains(key, keys[0], keys[j]);
        }
      } else {
        InsertAscends(key, keys[1..]);
        var rest := Insert(key, keys[1..]);
        forall j | 0 <= j < |rest|
          ensures Before(keys[0], rest[j])
        {
          assert rest[j] in rest;
          if rest[j] != key {
            var i :| 0 <= i < |keys[1..]| && keys[1..][i] == rest[j];
            assert keys[i + 1] == rest[j];
          }
        }
      }
    }
  }

  /** The keys of an object, in order. */
  function SortedKeys(fields: seq<(string, Json)>): (keys: seq<string>)
    ensures forall k :: k in keys <==> HasKey(fields, k)
  {
    if fields == [] then []
    else
      assert forall k :: HasKey(fields, k) <==> k == fields[0].0 || HasKey(fields[1..], k) by {
        FirstOrRest(fields);
      }
      Insert(fields[0].0, SortedKeys(fields[1..]))
  }

  lemma FirstOrRest(fields: seq<(string, Json)>)
    requires fields != []
    ensures forall k :: HasKey(fields, k) <==> k == fields[0].0 || HasKey(fields[1..], k)
  {
    forall k
      ensures HasKey(fields[1..], k) ==> HasKey(fields, k)
      ensures HasKey(fields, k) ==> k == fields[0].0 || HasKey(fields[1..], k)
    {
      if i :| 0 <= i < |fields[1..]| && fields[1..][i].0 == k {
        assert fields[i + 1].0 == k;
      }
      if i :| 0 < i < |fields| && fields[i].0 == k {
        assert fields[1..][i - 1].0 == k;
      }
    }
  }

  lemma {:induction false} SortedKeysAscend(fields: seq<(string, Json)>)
    ensures Ascends(SortedKeys(fields))
  {
    if fields != [] {
      SortedKeysAscend(fields[1..]);
      InsertAscends(fields[0].0, SortedKeys(fields[1..]));
    }
  }

  lemma FirstIsIn(b: seq<string>)
    ensures b != [] ==> b[0] in b
  {
  }

  /** Keys in order are determined by which they are. */
  lemma {:induction false} AscendingIsUnique(a: seq<string>, b: seq<string>)
    requires Ascends(a) && Ascends(b) && forall k :: k in a <==> k in b
    ensures a == b
  {
    if a == [] {
      FirstIsIn(b);
    } else {
      assert a[0] in b && b != [] && b[0] in a;
      FirstIsFirst(a, b);
      forall k
        ensures k in a[1..] <==> k in b[1..]
      {
        RestHasTheRest(a, k);
        RestHasTheRest(b, k);
      }
      AscendingIsUnique(a[1..], b[1..]);
      assert a == [a[0]] + a[1..] && b == [b[0]] + b[1..];
    }
  }

  lemma FirstIsFirst(a: seq<string>, b: seq<string>)
    requires Ascends(a) && Ascends(b) && a != [] && b != [] && a[0] in b && b[0] in a
    ensures a[0] == b[0]
  {
    var i :| 0 <= i < |b| && b[i] == a[0];
    var j :| 0 <= j < |a| && a[j] == b[0];
    BeforeIsStrict(a[0], b[0]);
  }

  lemma RestHasTheRest(a: seq<string>, k: string)
    requires Ascends(a) && a != []
    ensures k in a[1..] <==> k in a && k != a[0]
  {
    BeforeIsStrict(a[0], a[0]);
    if k in a[1..] {
      var i :| 0 <= i < |a[1..]| && a[1..][i] == k;
      assert a[i + 1] == k;
    }
  }

  // Scalars.

  const HEX: string := "0123456789abcdef"

  function Escape(c: char): (e: string) {
    if c == '"' then ['\\', '"']
    else if c == '\\' then ['\\', '\\']
    else if c as int == 8 then ['\\', 'b']
    else if c as int == 9 then ['\\', 't']
    else if c as int == 10 then ['\\', 'n']
    else if c as int == 12 then ['\\', 'f']
    else if c as int == 13 then ['\\', 'r']
    else if c as int < 32 then ['\\', 'u', '0', '0', HEX[c as int / 16], HEX[c as int % 16]]
    else [c]
  }

  function Escaped(s: string): string {
    if s == [] then [] else Escape(s[0]) + Escaped(s[1..])
  }

  function Quoted(s: string): string {
    ['"'] + Escaped(s) + ['"']
  }

  function NumberText(n: int): string {
    if n < 0 then ['-'] + Decimals.Text(-n) else Decimals.Text(n)
  }

  // The canonical text.

  function Write(v: Json): (t: string)
    ensures t != []
    decreases v, 1
  {
    match v
    case Null => "null"
    case Bool(b) => if b then "true" else "false"
    case Number(n) => NumberText(n)
    case Text(s) => Quoted(s)
    case Array(items) => ['['] + WriteItems(v, 0) + [']']
    case Object(fields) => ['{'] + WriteFields(v, SortedKeys(fields), 0) + ['}']
  }

  /** The items from `i` on, a comma before each but the first. */
  function WriteItems(v: Json, i: nat): string
    requires v.Array? && i <= |v.items|
    decreases v, 0, |v.items| - i
  {
    if i == |v.items| then []
    else (if i > 0 then [','] else []) + Write(v.items[i]) + WriteItems(v, i + 1)
  }

  function WriteFields(v: Json, keys: seq<string>, i: nat): string
    requires v.Object? && i <= |keys| && forall k :: k in keys ==> HasKey(v.fields, k)
    decreases v, 0, |keys| - i
  {
    if i == |keys| then []
    else (if i > 0 then [','] else []) + Quoted(keys[i]) + [':'] + Write(ValueOf(v, keys[i])) + WriteFields(v, keys, i + 1)
  }

  // One text for one value.

  /** Two values that are the same have the same keys, in the same order. */
  lemma SameKeys(v: Json, w: Json)
    requires v.Object? && Same(v, w)
    ensures SortedKeys(v.fields) == SortedKeys(w.fields)
  {
    SortedKeysAscend(v.fields);
    SortedKeysAscend(w.fields);
    forall k
      ensures HasKey(v.fields, k) <==> HasKey(w.fields, k)
    {
    }
    AscendingIsUnique(SortedKeys(v.fields), SortedKeys(w.fields));
  }

  lemma SameValueOf(v: Json, w: Json, key: string)
    requires v.Object? && Same(v, w) && HasKey(v.fields, key)
    ensures HasKey(w.fields, key) && Same(ValueOf(v, key), ValueOf(w, key))
  {
    var i := IndexOf(v.fields, key);
    assert v.fields[i].0 == key;
  }

  /** The same value has the same text, whatever order its keys were built in. */
  lemma {:induction false} SameText(v: Json, w: Json)
    requires Same(v, w)
    ensures Write(v) == Write(w)
    decreases v, 1
  {
    match v
    case Array(_) => SameItems(v, w, 0);
    case Object(_) =>
      SameKeys(v, w);
      SameFields(v, w, SortedKeys(v.fields), 0);
    case _ =>
  }

  lemma {:induction false} SameItems(v: Json, w: Json, i: nat)
    requires v.Array? && Same(v, w) && i <= |v.items|
    ensures WriteItems(v, i) == WriteItems(w, i)
    decreases v, 0, |v.items| - i
  {
    if i < |v.items| {
      SameText(v.items[i], w.items[i]);
      SameItems(v, w, i + 1);
    }
  }

  lemma {:induction false} SameFields(v: Json, w: Json, keys: seq<string>, i: nat)
    requires v.Object? && Same(v, w) && i <= |keys|
    requires (forall k :: k in keys ==> HasKey(v.fields, k)) && forall k :: k in keys ==> HasKey(w.fields, k)
    ensures WriteFields(v, keys, i) == WriteFields(w, keys, i)
    decreases v, 0, |keys| - i
  {
    if i < |keys| {
      SameValueOf(v, w, keys[i]);
      SameText(ValueOf(v, keys[i]), ValueOf(w, keys[i]));
      SameFields(v, w, keys, i + 1);
    }
  }

  // No text begins another: what follows a value is the end, or a delimiter.

  predicate Follows(tail: string) {
    tail == [] || tail[0] in [',', ']', '}', ':']
  }

  /** An escape's first characters say which and how long it is. */
  lemma EscapeIsTold(c: char)
    ensures var e := Escape(c);
            && e != [] && e[0] != '"' && (e[0] == '\\' <==> |e| > 1) &&
               (|e| > 1 ==> (e[1] == 'u' <==> |e| == 6) && (e[1] != 'u' <==> |e| == 2))
  {
  }

  function HexValue(c: char): int {
    if '0' <= c <= '9' then c as int - '0' as int else c as int - 'a' as int + 10
  }

  /** The character an escape stands for, from the characters of it that matter. */
  function Decoded(e: string): int
    requires e != [] && (|e| == 1 || |e| == 2 || |e| == 6)
  {
    if |e| == 1 then e[0] as int
    else if |e| == 6 then 16 * HexValue(e[4]) + HexValue(e[5])
    else if e[1] == 'b' then 8
    else if e[1] == 't' then 9
    else if e[1] == 'n' then 10
    else if e[1] == 'f' then 12
    else if e[1] == 'r' then 13
    else e[1] as int
  }

  lemma EscapeDecodes(c: char)
    ensures var e := Escape(c); e != [] && (|e| == 1 || |e| == 2 || |e| == 6) && Decoded(e) == c as int
  {
  }

  lemma EscapesDiffer(c: char, d: char)
    requires Escape(c)[0] == Escape(d)[0] && |Escape(c)| == |Escape(d)|
    requires |Escape(c)| > 1 ==> Escape(c)[1] == Escape(d)[1]
    requires |Escape(c)| == 6 ==> Escape(c)[4] == Escape(d)[4] && Escape(c)[5] == Escape(d)[5]
    ensures c == d
  {
    hide Escape;
    EscapeDecodes(c);
    EscapeDecodes(d);
  }

  lemma EscapesApart(c: char, d: char, x: string, y: string)
    requires Escape(c) + x == Escape(d) + y
    ensures c == d && x == y
  {
    var e, f := Escape(c), Escape(d);
    EscapeIsTold(c);
    EscapeIsTold(d);
    hide Escape;
    var s := e + x;
    assert s[0] == e[0] == f[0];
    assert |e| > 1 ==> s[1] == e[1] == f[1];
    assert |e| == 6 ==> s[4] == e[4] == f[4] && s[5] == e[5] == f[5];
    EscapesDiffer(c, d);
    assert s[|e|..] == x && s[|f|..] == y;
  }

  lemma QuoteEnds(s: string, x: string)
    ensures s == [] <==> (Escaped(s) + ['"'] + x)[0] == '"'
  {
    if s != [] {
      EscapeIsTold(s[0]);
      assert (Escaped(s) + ['"'] + x)[0] == Escape(s[0])[0];
    }
  }

  /** A quoted text ends at its own quote. */
  lemma {:induction false} StringsApart(s: string, t: string, x: string, y: string)
    requires Escaped(s) + ['"'] + x == Escaped(t) + ['"'] + y
    ensures s == t && x == y
  {
    hide Escape;
    QuoteEnds(s, x);
    QuoteEnds(t, y);
    var a, b := Escaped(s) + ['"'] + x, Escaped(t) + ['"'] + y;
    if s == [] {
      assert a[1..] == x && b[1..] == y;
    } else {
      var p, q := Escaped(s[1..]) + ['"'] + x, Escaped(t[1..]) + ['"'] + y;
      assert a == Escape(s[0]) + p && b == Escape(t[0]) + q;
      EscapesApart(s[0], t[0], p, q);
      StringsApart(s[1..], t[1..], x, y);
      assert s == [s[0]] + s[1..] && t == [t[0]] + t[1..];
    }
  }

  lemma QuotedApart(s: string, t: string, x: string, y: string)
    requires Quoted(s) + x == Quoted(t) + y
    ensures s == t && x == y
  {
    hide Escaped;
    assert (Quoted(s) + x)[1..] == Escaped(s) + ['"'] + x;
    assert (Quoted(t) + y)[1..] == Escaped(t) + ['"'] + y;
    StringsApart(s, t, x, y);
  }

  predicate Digits(t: string) {
    forall c :: c in t ==> IsDigit(c)
  }

  /** How many digits a text begins with. */
  function Lead(s: string): nat {
    if s == [] || !IsDigit(s[0]) then 0 else 1 + Lead(s[1..])
  }

  lemma {:induction false} LeadIs(a: string, x: string)
    requires Digits(a) && Follows(x)
    ensures Lead(a + x) == |a|
  {
    if a == [] {
      assert a + x == x;
    } else {
      assert a[0] in a;
      assert (a + x)[1..] == a[1..] + x;
      LeadIs(a[1..], x);
    }
  }

  lemma DigitsApart(a: string, b: string, x: string, y: string)
    requires Digits(a) && Digits(b) && Follows(x) && Follows(y) && a + x == b + y
    ensures a == b && x == y
  {
    LeadIs(a, x);
    LeadIs(b, y);
    var s := a + x;
    assert s[..|a|] == a && s[..|b|] == b;
    assert s[|a|..] == x && s[|b|..] == y;
  }

  lemma NumbersApart(m: int, n: int, x: string, y: string)
    requires Follows(x) && Follows(y) && NumberText(m) + x == NumberText(n) + y
    ensures m == n && x == y
  {
    hide Decimals.Text, NumberText, Follows, Decimals.Value;
    SignTells(m, x);
    SignTells(n, y);
    var a, b := Decimals.Text(Magnitude(m)), Decimals.Text(Magnitude(n));
    DigitsApart(a, b, x, y);
    TextSpells(Magnitude(m));
    TextSpells(Magnitude(n));
  }

  function Magnitude(n: int): nat {
    if n < 0 then -n else n
  }

  /** A number's first character is its sign, if it has one; the rest are the digits of its magnitude. */
  lemma SignTells(n: int, x: string)
    ensures var s, digits := NumberText(n) + x, Decimals.Text(Magnitude(n));
            && s != [] && (s[0] == '-' <==> n < 0) && Digits(digits)
            && digits + x == (if s[0] == '-' then s[1..] else s)
  {
    hide Decimals.Text;
    var digits := Decimals.Text(Magnitude(n));
    assert digits[0] in digits;
    if n < 0 {
      assert (NumberText(n) + x)[1..] == digits + x;
    }
  }

  /** The first character says what a value is. */
  function KindOf(v: Json): nat {
    match v case Null => 0 case Bool(_) => 1 case Number(_) => 2 case Text(_) => 3 case Array(_) => 4 case Object(_) => 5
  }

  function KindAt(c: char): nat {
    if c == 'n' then 0 else if c == 't' || c == 'f' then 1 else if c == '"' then 3 else if c == '[' then 4 else if c == '{' then 5 else 2
  }

  lemma FirstTells(v: Json)
    ensures KindAt(Write(v)[0]) == KindOf(v) && Write(v)[0] !in [',', ']', '}', ':']
  {
    if v.Number? {
      var t := Decimals.Text(if v.number < 0 then -v.number else v.number);
      assert t[0] in t;
    }
  }

  lemma LiteralsApart(v: Json, w: Json, x: string, y: string)
    requires (v.Null? && w.Null?) || (v.Bool? && w.Bool?)
    requires Write(v) + x == Write(w) + y
    ensures v == w && x == y
  {
    var s := Write(v) + x;
    assert s[0] == Write(v)[0] == Write(w)[0];
    assert |Write(v)| == |Write(w)|;
    assert s[|Write(v)|..] == x && s[|Write(w)|..] == y;
  }

  /** Texts with delimiters after them are one only if the values are the same: no text of a
      value begins another's. */
  lemma {:induction false} ValuesApart(v: Json, w: Json, x: string, y: string)
    requires Valid(v) && Valid(w) && Follows(x) && Follows(y) && Write(v) + x == Write(w) + y
    ensures Same(v, w) && x == y
    decreases v, 1
  {
    assert (Write(v) + x)[0] == Write(v)[0] == Write(w)[0];
    FirstTells(v);
    FirstTells(w);
    match v
    case Null => LiteralsApart(v, w, x, y);
    case Bool(_) => LiteralsApart(v, w, x, y);
    case Number(m) => NumbersApart(m, w.number, x, y);
    case Text(s) => QuotedApart(s, w.text, x, y);
    case Array(_) => ArraysApart(v, w, x, y);
    case Object(_) => ObjectsApart(v, w, x, y);
  }

  lemma ArraysApart(v: Json, w: Json, x: string, y: string)
    requires v.Array? && w.Array? && Valid(v) && Valid(w) && Follows(x) && Follows(y) && Write(v) + x == Write(w) + y
    ensures Same(v, w) && x == y
    decreases v, 0, |v.items| + 1
  {
    hide WriteItems;
    assert (Write(v) + x)[1..] == ItemsOn(v, 0, x);
    assert (Write(w) + y)[1..] == ItemsOn(w, 0, y);
    ItemsApart(v, w, 0, x, y);
  }

  function Comma(i: nat): string {
    if i > 0 then [','] else []
  }

  /** The items from `i` on, to the end of the array and past it. */
  function ItemsOn(v: Json, i: nat, x: string): string
    requires v.Array? && i <= |v.items|
  {
    WriteItems(v, i) + [']'] + x
  }

  lemma ItemsBegin(v: Json, i: nat, x: string)
    requires v.Array? && i <= |v.items|
    ensures ItemsOn(v, i, x) != [] && (i == |v.items| <==> ItemsOn(v, i, x)[0] == ']') && (i > 0 ==> Follows(ItemsOn(v, i, x)))
  {
    if i < |v.items| {
      FirstTells(v.items[i]);
    }
  }

  lemma ItemsGoOn(v: Json, i: nat, x: string)
    requires v.Array? && i < |v.items|
    ensures ItemsOn(v, i, x) == Comma(i) + (Write(v.items[i]) + ItemsOn(v, i + 1, x))
  {
    hide Write;
  }

  lemma ItemsEnd(v: Json, x: string)
    requires v.Array?
    ensures ItemsOn(v, |v.items|, x) == [']'] + x
  {
  }

  lemma {:induction false} ItemsApart(v: Json, w: Json, i: nat, x: string, y: string)
    requires v.Array? && w.Array? && Valid(v) && Valid(w) && i <= |v.items| && i <= |w.items|
    requires ItemsOn(v, i, x) == ItemsOn(w, i, y)
    ensures |v.items| == |w.items| && (forall j :: i <= j < |v.items| ==> Same(v.items[j], w.items[j])) && x == y
    decreases v, 0, |v.items| - i
  {
    hide Write, Same, ItemsOn, Follows;
    ItemsBegin(v, i, x);
    ItemsBegin(w, i, y);
    if i == |v.items| {
      ItemsEnd(v, x);
      ItemsEnd(w, y);
      Suffixes([']'], x, y);
    } else {
      ItemsBegin(v, i + 1, x);
      ItemsBegin(w, i + 1, y);
      ItemsGoOn(v, i, x);
      ItemsGoOn(w, i, y);
      Suffixes(Comma(i), Write(v.items[i]) + ItemsOn(v, i + 1, x), Write(w.items[i]) + ItemsOn(w, i + 1, y));
      ValuesApart(v.items[i], w.items[i], ItemsOn(v, i + 1, x), ItemsOn(w, i + 1, y));
      ItemsApart(v, w, i + 1, x, y);
    }
  }

  lemma Suffixes(head: string, x: string, y: string)
    requires head + x == head + y
    ensures x == y
  {
    assert (head + x)[|head|..] == x && (head + y)[|head|..] == y;
  }

  lemma ObjectsApart(v: Json, w: Json, x: string, y: string)
    requires v.Object? && w.Object? && Valid(v) && Valid(w) && Follows(x) && Follows(y) && Write(v) + x == Write(w) + y
    ensures Same(v, w) && x == y
    decreases v, 0, |SortedKeys(v.fields)| + 1
  {
    hide WriteFields, Valid;
    var a, b := SortedKeys(v.fields), SortedKeys(w.fields);
    assert (Write(v) + x)[1..] == FieldsOn(v, a, 0, x);
    assert (Write(w) + y)[1..] == FieldsOn(w, b, 0, y);
    FieldsApart(v, w, a, b, 0, x, y);
    FieldsMakeSame(v, w, a);
  }

  lemma FieldsMakeSame(v: Json, w: Json, keys: seq<string>)
    requires v.Object? && w.Object? && keys == SortedKeys(v.fields) == SortedKeys(w.fields) && Valid(v)
    requires forall j :: 0 <= j < |keys| ==> Same(ValueOf(v, keys[j]), ValueOf(w, keys[j]))
    ensures Same(v, w)
  {
    forall i | 0 <= i < |w.fields|
      ensures HasKey(v.fields, w.fields[i].0)
    {
      assert HasKey(w.fields, w.fields[i].0);
    }
    forall i | 0 <= i < |v.fields|
      ensures HasKey(w.fields, v.fields[i].0) && Same(v.fields[i].1, ValueOf(w, v.fields[i].0))
    {
      var key := v.fields[i].0;
      assert HasKey(v.fields, key);
      assert key in keys;
      var j :| 0 <= j < |keys| && keys[j] == key;
      assert v.fields[IndexOf(v.fields, key)].0 == key;
      assert IndexOf(v.fields, key) == i;
    }
  }

  predicate AreKeys(v: Json, keys: seq<string>) {
    v.Object? && forall k :: k in keys ==> HasKey(v.fields, k)
  }

  /** The fields from `i` on, to the end of the object and past it. */
  function FieldsOn(v: Json, keys: seq<string>, i: nat, x: string): string
    requires AreKeys(v, keys) && i <= |keys|
  {
    WriteFields(v, keys, i) + ['}'] + x
  }

  lemma FieldsBegin(v: Json, keys: seq<string>, i: nat, x: string)
    requires AreKeys(v, keys) && i <= |keys|
    ensures var s := FieldsOn(v, keys, i, x);
            s != [] && (i == |keys| <==> s[0] == '}') && (i > 0 ==> Follows(s))
  {
  }

  lemma FieldsGoOn(v: Json, keys: seq<string>, i: nat, x: string)
    requires AreKeys(v, keys) && i < |keys|
    ensures FieldsOn(v, keys, i, x)
            == Comma(i) + (Quoted(keys[i]) + ([':'] + (Write(ValueOf(v, keys[i])) + FieldsOn(v, keys, i + 1, x))))
  {
    hide Write, Quoted, ValueOf;
  }

  lemma FieldsEnd(v: Json, keys: seq<string>, x: string)
    requires AreKeys(v, keys)
    ensures FieldsOn(v, keys, |keys|, x) == ['}'] + x
  {
  }

  lemma {:induction false} FieldsApart(v: Json, w: Json, a: seq<string>, b: seq<string>, i: nat, x: string, y: string)
    requires AreKeys(v, a) && AreKeys(w, b) && Valid(v) && Valid(w)
    requires i <= |a| && i <= |b| && a[..i] == b[..i]
    requires FieldsOn(v, a, i, x) == FieldsOn(w, b, i, y)
    ensures a == b && (forall j :: i <= j < |a| ==> Same(ValueOf(v, a[j]), ValueOf(w, a[j]))) && x == y
    decreases v, 0, |a| - i
  {
    hide Write, Same, Quoted, IndexOf, Valid, FieldsOn, ValueOf, HasKey, Follows;
    FieldsBegin(v, a, i, x);
    FieldsBegin(w, b, i, y);
    if i == |a| {
      FieldsEnd(v, a, x);
      FieldsEnd(w, b, y);
      Suffixes(['}'], x, y);
    } else {
      FieldApart(v, w, a, b, i, x, y);
      assert a[..i + 1] == a[..i] + [a[i]] && b[..i + 1] == b[..i] + [b[i]];
      FieldsApart(v, w, a, b, i + 1, x, y);
    }
  }

  /** One field: its key, and its value. */
  lemma FieldApart(v: Json, w: Json, a: seq<string>, b: seq<string>, i: nat, x: string, y: string)
    requires AreKeys(v, a) && AreKeys(w, b) && Valid(v) && Valid(w) && i < |a| && i < |b|
    requires FieldsOn(v, a, i, x) == FieldsOn(w, b, i, y)
    ensures a[i] == b[i] && Same(ValueOf(v, a[i]), ValueOf(w, b[i])) && FieldsOn(v, a, i + 1, x) == FieldsOn(w, b, i + 1, y)
    decreases v, 0, 0
  {
    hide Write, Same, Quoted, IndexOf, Valid, FieldsOn, ValueOf, HasKey, Follows;
    FieldsBegin(v, a, i + 1, x);
    FieldsBegin(w, b, i + 1, y);
    var p, q := FieldsOn(v, a, i + 1, x), FieldsOn(w, b, i + 1, y);
    var vv, ww := Write(ValueOf(v, a[i])) + p, Write(ValueOf(w, b[i])) + q;
    FieldsGoOn(v, a, i, x);
    FieldsGoOn(w, b, i, y);
    Suffixes(Comma(i), Quoted(a[i]) + ([':'] + vv), Quoted(b[i]) + ([':'] + ww));
    QuotedApart(a[i], b[i], [':'] + vv, [':'] + ww);
    Suffixes([':'], vv, ww);
    ValuesApart(ValueOf(v, a[i]), ValueOf(w, b[i]), p, q);
  }

  /** Two values have one canonical text exactly when they are the same. */
  lemma CanonicalIsInjective(v: Json, w: Json)
    requires Valid(v) && Valid(w)
    ensures Write(v) == Write(w) <==> Same(v, w)
  {
    if Write(v) == Write(w) {
      assert Write(v) + [] == Write(v) && Write(w) + [] == Write(w);
      ValuesApart(v, w, [], []);
    }
    if Same(v, w) {
      SameText(v, w);
    }
  }

  /** A resource's canonical text: the three parts as an array. */
  function Canonical(tenant: string, kind: string, id: Json): string {
    Write(Array([Text(tenant), Text(kind), id]))
  }

  /** One text for one resource, however its id was built, and no other's. */
  lemma ResourceIsBound(tenant: string, kind: string, id: Json, tenant': string, kind': string, id': Json)
    requires Valid(id) && Valid(id')
    ensures Canonical(tenant, kind, id) == Canonical(tenant', kind', id')
            <==> tenant == tenant' && kind == kind' && Same(id, id')
  {
    var v, w := Array([Text(tenant), Text(kind), id]), Array([Text(tenant'), Text(kind'), id']);
    CanonicalIsInjective(v, w);
    assert Same(v.items[0], w.items[0]) <==> tenant == tenant';
    assert Same(v.items[1], w.items[1]) <==> kind == kind';
    assert v.items[2] == id && w.items[2] == id';
  }

  /** The text as it is written: appended to a buffer. */
  class Buffer {
    var text: string

    constructor ()
      ensures text == ""
    {
      text := "";
    }

    method Push(more: string)
      modifies this
      ensures text == old(text) + more
    {
      text := text + more;
    }

    method WriteValue(v: Json)
      modifies this
      ensures text == old(text) + Write(v)
      decreases v, 1
    {
      match v
      case Object(_) => WriteObject(v);
      case Array(_) => WriteArray(v);
      case scalar => Push(Write(scalar));
    }

    method WriteObject(v: Json)
      requires v.Object?
      modifies this
      ensures text == old(text) + Write(v)
      decreases v, 0
    {
      hide Quoted, ValueOf, HasKey, WriteFields;
      var keys := SortedKeys(v.fields);
      Push("{");
      for i := 0 to |keys|
        invariant text + WriteFields(v, keys, i) == old(text) + ['{'] + WriteFields(v, keys, 0)
      {
        ghost var at := text;
        if i > 0 {
          Push(",");
        }
        Push(Quoted(keys[i]));
        Push(":");
        WriteValue(ValueOf(v, keys[i]));
        FieldWritten(v, keys, i, at);
      }
      NoFieldWritten(v, keys);
      assert text == old(text) + ['{'] + WriteFields(v, keys, 0);
      Push("}");
      assert text == old(text) + (['{'] + WriteFields(v, keys, 0) + ['}']);
    }

    method WriteArray(v: Json)
      requires v.Array?
      modifies this
      ensures text == old(text) + Write(v)
      decreases v, 0
    {
      hide WriteItems;
      Push("[");
      for i := 0 to |v.items|
        invariant text + WriteItems(v, i) == old(text) + ['['] + WriteItems(v, 0)
      {
        ghost var at := text;
        if i > 0 {
          Push(",");
        }
        WriteValue(v.items[i]);
        ItemWritten(v, i, at);
      }
      NoItemWritten(v);
      assert text == old(text) + ['['] + WriteItems(v, 0);
      Push("]");
      assert text == old(text) + (['['] + WriteItems(v, 0) + [']']);
    }
  }

  lemma FieldWritten(v: Json, keys: seq<string>, i: nat, at: string)
    requires v.Object? && i < |keys| && forall k :: k in keys ==> HasKey(v.fields, k)
    ensures at + Comma(i) + Quoted(keys[i]) + [':'] + Write(ValueOf(v, keys[i])) + WriteFields(v, keys, i + 1)
            == at + WriteFields(v, keys, i)
  {
    hide Write, Quoted, ValueOf;
  }

  lemma NoFieldWritten(v: Json, keys: seq<string>)
    requires v.Object? && forall k :: k in keys ==> HasKey(v.fields, k)
    ensures WriteFields(v, keys, |keys|) == []
  {
  }

  lemma ItemWritten(v: Json, i: nat, at: string)
    requires v.Array? && i < |v.items|
    ensures at + Comma(i) + Write(v.items[i]) + WriteItems(v, i + 1) == at + WriteItems(v, i)
  {
    hide Write;
  }

  lemma NoItemWritten(v: Json)
    requires v.Array?
    ensures WriteItems(v, |v.items|) == []
  {
  }

  /** The canonical text of `v`. */
  method CanonicalText(v: Json) returns (text: string)
    ensures text == Write(v)
  {
    var out := new Buffer();
    out.WriteValue(v);
    text := out.text;
  }
}
