/** A snapshot as PostgreSQL prints it, and the parser that reads it back. */
module SnapshotText {
  import opened Decimals
  import opened Snapshots

  function Texts(numbers: seq<nat>): (parts: seq<string>)
    ensures |parts| == |numbers| && forall i :: 0 <= i < |parts| ==> parts[i] == Text(numbers[i])
  {
    if numbers == [] then [] else [Text(numbers[0])] + Texts(numbers[1..])
  }

  /** `xmin:xmax:xip`, the list's ids separated by commas. */
  function Print(s: Snapshot): string {
    Text(s.xmin) + ":" + Text(s.xmax) + ":" + ListText(s.xip)
  }

  function ParseAll(parts: seq<string>): (r: Parsed<seq<nat>>) {
    if parts == [] then Ok([])
    else match (ParseU64(parts[0]), ParseAll(parts[1..]))
      case (Ok(first), Ok(rest)) => Ok([first] + rest)
      case _ => Malformed
  }

  /** Cut at the first two colons, an empty list no list at all. */
  function Parse(text: string): (r: Parsed<Snapshot>) {
    var i := Find(text, ':');
    if i == |text| then Malformed else
      var rest := text[i + 1..];
      var j := Find(rest, ':');
      if j == |rest| then Malformed else
        match (ParseU64(text[..i]), ParseU64(rest[..j]), ParseList(rest[j + 1..]))
        case (Ok(xmin), Ok(xmax), Ok(xip)) => Ok(Snapshot(xmin, xmax, xip))
        case _ => Malformed
  }

  /** Every id is one of the server's, of 64 bits. */
  predicate Fits(s: Snapshot) {
    s.xmin < U64 && s.xmax < U64 && AllFit(s.xip)
  }

  predicate AllFit(numbers: seq<nat>) {
    forall x :: x in numbers ==> x < U64
  }

  lemma AllFitFirst(numbers: seq<nat>)
    requires numbers != []
    ensures AllFit(numbers) <==> numbers[0] < U64 && AllFit(numbers[1..])
  {
    assert numbers[0] in numbers;
    assert forall x :: x in numbers[1..] ==> x in numbers;
    assert forall x :: x in numbers ==> x == numbers[0] || x in numbers[1..];
  }

  lemma NoneIsToFit()
    ensures AllFit([])
  {
  }

  lemma {:induction false} ParseTexts(numbers: seq<nat>)
    ensures ParseAll(Texts(numbers)) == if AllFit(numbers) then Ok(numbers) else Malformed
  {
    hide ParseU64, Text, AllFit;
    if numbers == [] {
      assert AllFit([]) by { NoneIsToFit(); }
    } else {
      ParsePrinted(numbers[0]);
      ParseTexts(numbers[1..]);
      AllFitFirst(numbers);
      assert Texts(numbers)[1..] == Texts(numbers[1..]);
      assert numbers == [numbers[0]] + numbers[1..];
    }
  }

  lemma {:induction false} JoinedIsNotEmpty(parts: seq<string>, c: char)
    requires parts != [] && parts[0] != []
    ensures Join(parts, c) != []
  {
  }

  /** The list as it is printed. */
  function ListText(xip: seq<nat>): string {
    if xip == [] then "" else Join(Texts(xip), ',')
  }

  /** The list as it is read. */
  function ParseList(list: string): (r: Parsed<seq<nat>>) {
    if list == [] then Ok([]) else ParseAll(Split(list, ','))
  }

  lemma ParseListText(xip: seq<nat>)
    ensures ParseList(ListText(xip)) == if AllFit(xip) then Ok(xip) else Malformed
  {
    if xip != [] {
      JoinedIsNotEmpty(Texts(xip), ',');
      SplitJoined(Texts(xip), ',');
      ParseTexts(xip);
    }
  }

  /** A head without the separator, cut off before it. */
  lemma CutFirst(head: string, c: char, tail: string)
    requires c !in head
    ensures var t := head + [c] + tail;
            var i := Find(t, c);
            i == |head| < |t| && t[..i] == head && t[i + 1..] == tail
  {
    FindFirst(head, c, tail);
  }

  /** What is printed reads back as the snapshot printed, exactly when its ids are of 64 bits. */
  lemma RoundTrip(s: Snapshot)
    ensures Parse(Print(s)) == if Fits(s) then Ok(s) else Malformed
  {
    hide Text, ParseU64, Find, ParseList, ListText;
    var list := ListText(s.xip);
    var rest := Text(s.xmax) + [':'] + list;
    assert Print(s) == Text(s.xmin) + [':'] + rest;
    CutFirst(Text(s.xmin), ':', rest);
    CutFirst(Text(s.xmax), ':', list);
    ParsePrinted(s.xmin);
    ParsePrinted(s.xmax);
    ParseListText(s.xip);
  }

  /** Two snapshots print alike only if they are one. */
  lemma PrintIsInjective(s: Snapshot, t: Snapshot)
    requires Fits(s) && Fits(t) && Print(s) == Print(t)
    ensures s == t
  {
    RoundTrip(s);
    RoundTrip(t);
  }

  lemma {:induction false} ParseAllFits(parts: seq<string>)
    requires ParseAll(parts).Ok?
    ensures |ParseAll(parts).value| == |parts| && forall x :: x in ParseAll(parts).value ==> x < U64
  {
    if parts != [] {
      ParseAllFits(parts[1..]);
    }
  }

  /** Whatever text a snapshot was read from, printing it gives a text that reads the same. */
  lemma PrintedParse(text: string)
    requires Parse(text).Ok?
    ensures Fits(Parse(text).value) && Parse(Print(Parse(text).value)) == Parse(text)
  {
    ParsedFits(text);
    hide Parse, Print, Fits;
    RoundTrip(Parse(text).value);
  }

  lemma ParsedFits(text: string)
    requires Parse(text).Ok?
    ensures Fits(Parse(text).value)
  {
    hide Split, Find;
    var i := Find(text, ':');
    var rest := text[i + 1..];
    var list := rest[Find(rest, ':') + 1..];
    if list != [] {
      ParseAllFits(Split(list, ','));
    }
  }

  /** A text with more or fewer than two colons is no snapshot: a third would be read as
      part of the list, and no number holds one. */
  lemma ThirdColon(text: string)
    requires Parse(text).Ok?
    ensures multiset(text)[':'] == 2
  {
    hide ParseU64, ParseList;
    var i := Find(text, ':');
    var rest := text[i + 1..];
    var j := Find(rest, ':');
    var list := rest[j + 1..];
    assert rest == rest[..j] + [':'] + list;
    assert text == text[..i] + [':'] + rest;
    NoColonInList(list);
    OneMoreColon(text[..i], rest);
    OneMoreColon(rest[..j], list);
  }

  lemma OneMoreColon(head: string, tail: string)
    requires ':' !in head
    ensures multiset(head + [':'] + tail)[':'] == 1 + multiset(tail)[':']
  {
    assert multiset(head)[':'] == 0;
  }

  lemma NumberHasNoColon(t: string)
    requires ParseU64(t).Ok?
    ensures ':' !in t
  {
    var digits := if t != [] && t[0] == '+' then t[1..] else t;
    assert forall c :: c in digits ==> IsDigit(c);
    assert t == digits || t == ['+'] + digits;
  }

  lemma NoColonInList(list: string)
    requires ParseList(list).Ok?
    ensures ':' !in list
    decreases |list|
  {
    if list != [] {
      var i := Find(list, ',');
      if i == |list| {
        assert Split(list, ',')[0] == list;
        NumberHasNoColon(list);
      } else {
        assert Split(list, ',')[0] == list[..i] && Split(list, ',')[1..] == Split(list[i + 1..], ',');
        NumberHasNoColon(list[..i]);
        NoColonInList(list[i + 1..]);
        assert list == list[..i] + [','] + list[i + 1..];
      }
    }
  }
}
