/** Numbers as decimal text, and text cut at a separator: what a printer writes and its
    parser reads. */
module Decimals {
  const U64 := 0x1_0000_0000_0000_0000

  const DIGITS: string := "0123456789"

  predicate IsDigit(c: char) {
    '0' <= c <= '9'
  }

  /** Decimal text, without leading zeros. */
  function Text(n: nat): (t: string)
    ensures t != [] && forall c :: c in t ==> IsDigit(c)
  {
    (if n < 10 then [] else Text(n / 10)) + [DIGITS[n % 10]]
  }

  /** The number some digits spell. */
  function Value(t: string): nat
    requires forall c :: c in t ==> IsDigit(c)
  {
    if t == [] then 0 else
      var last := t[|t| - 1];
      assert last in t && IsDigit(last);
      10 * Value(t[..|t| - 1]) + (last as int - '0' as int)
  }

  lemma {:induction false} TextSpells(n: nat)
    ensures Value(Text(n)) == n
  {
    var t := Text(n);
    if n >= 10 {
      TextSpells(n / 10);
      assert t[..|t| - 1] == Text(n / 10);
    }
  }

  datatype Parsed<+T> = Ok(value: T) | Malformed

  /** `parse::<u64>()`: digits, at least one, after an optional plus sign, below 2^64. */
  function ParseU64(t: string): (r: Parsed<nat>) {
    var digits := if t != [] && t[0] == '+' then t[1..] else t;
    if digits == [] || exists c :: c in digits && !IsDigit(c) then Malformed
    else if Value(digits) >= U64 then Malformed
    else Ok(Value(digits))
  }

  lemma ParsePrinted(n: nat)
    ensures ParseU64(Text(n)) == if n < U64 then Ok(n) else Malformed
  {
    TextSpells(n);
    assert Text(n)[0] in Text(n);
  }

  /** Where `c` first occurs, or the length. */
  function Find(t: string, c: char): (i: nat)
    ensures i <= |t| && c !in t[..i] && (i < |t| ==> t[i] == c)
  {
    if t == [] || t[0] == c then 0 else
      var i := Find(t[1..], c) + 1;
      assert t[..i] == [t[0]] + t[1..][..i - 1];
      i
  }

  lemma {:induction false} FindFirst(head: string, c: char, tail: string)
    requires c !in head
    ensures Find(head + [c] + tail, c) == |head|
  {
    var t := head + [c] + tail;
    if head != [] {
      assert head[0] in head;
      FindFirst(head[1..], c, tail);
      assert t[1..] == head[1..] + [c] + tail;
    }
  }

  lemma {:induction false} FindNone(t: string, c: char)
    requires c !in t
    ensures Find(t, c) == |t|
  {
    if t != [] {
      assert t[0] in t;
      FindNone(t[1..], c);
    }
  }

  /** The parts between the separators, one at least. */
  function Split(t: string, c: char): (parts: seq<string>)
    ensures parts != []
    decreases |t|
  {
    var i := Find(t, c);
    if i == |t| then [t] else [t[..i]] + Split(t[i + 1..], c)
  }

  /** The parts with a separator between each two. */
  function Join(parts: seq<string>, c: char): string
    requires parts != []
  {
    if |parts| == 1 then parts[0] else parts[0] + [c] + Join(parts[1..], c)
  }

  lemma {:induction false} SplitJoined(parts: seq<string>, c: char)
    requires parts != [] && forall p :: p in parts ==> c !in p
    ensures Split(Join(parts, c), c) == parts
  {
    assert parts[0] in parts;
    if |parts| == 1 {
      FindNone(parts[0], c);
    } else {
      var tail := Join(parts[1..], c);
      FindFirst(parts[0], c, tail);
      SplitJoined(parts[1..], c);
      var t := Join(parts, c);
      assert t == parts[0] + [c] + tail;
      assert t[|parts[0]| + 1..] == tail && t[..|parts[0]|] == parts[0];
    }
  }
}
