/** Canonical JSON reads back: what is rendered denotes the value, members sorted. */
module CanonicalTheorems {
  import opened Prelude
  import opened Json
  import opened JsonReader
  import opened Text
  import opened Canonical
  import opened CanonicalNumbers

  // ----- a printer that keeps member order

  /** A bracketed list and the text `x` after it, from just inside the opening
      bracket (`first`) or just after an element. */
  function List(parts: seq<string>, close: char, first: bool, x: string): string {
    if parts == [] then [close] + x
    else (if first then "" else ",") + (parts[0] + List(parts[1..], close, false, x))
  }

  function Print(v: Value, style: Style): string {
    match v
    case Null => "null"
    case Bool(b) => if b then "true" else "false"
    case Num(num) => Shown(style, num)
    case Str(s) => Quote(s)
    case Arr(items) =>
      "[" + List(seq(|items|, i requires 0 <= i < |items| => Print(items[i], style)), ']', true, "")
    case Obj(entries) =>
      "{" + List(seq(|entries|, i requires 0 <= i < |entries| =>
        Quote(entries[i].key) + (":" + Print(entries[i].value, style))), '}', true, "")
  }

  function ItemTexts(items: seq<Value>, style: Style): seq<string> {
    seq(|items|, i requires 0 <= i < |items| => Print(items[i], style))
  }

  function MemberText(m: Member, style: Style): string {
    Quote(m.key) + (":" + Print(m.value, style))
  }

  function MemberTexts(entries: seq<Member>, style: Style): seq<string> {
    seq(|entries|, i requires 0 <= i < |entries| => MemberText(entries[i], style))
  }

  lemma PrintArray(items: seq<Value>, style: Style)
    ensures Print(Arr(items), style) == "[" + List(ItemTexts(items, style), ']', true, "")
  {
    assert ItemTexts(items, style) == seq(|items|, i requires 0 <= i < |items| => Print(items[i], style));
  }

  lemma PrintObject(entries: seq<Member>, style: Style)
    ensures Print(Obj(entries), style) == "{" + List(MemberTexts(entries, style), '}', true, "")
  {
    assert MemberTexts(entries, style) == seq(|entries|, i requires 0 <= i < |entries| =>
        Quote(entries[i].key) + (":" + Print(entries[i].value, style)));
  }

  lemma {:induction false} ListAppend(parts: seq<string>, close: char, first: bool, x: string)
    ensures List(parts, close, first, "") + x == List(parts, close, first, x)
  {
    if parts == [] {
    } else {
      ListAppend(parts[1..], close, false, x);
    }
  }

  lemma {:induction false} JoinList(parts: seq<string>, close: char)
    ensures Join(parts) + [close] == List(parts, close, true, "")
  {
    if |parts| > 1 {
      JoinList(parts[1..], close);
      assert List(parts[1..], close, false, "") == "," + List(parts[1..], close, true, "");
    }
  }

  // ----- the renderer prints the normal form

  /** Rendering succeeds exactly on values whose floats read back, and then
      prints the normal form. */
  lemma {:induction false} RendersNormalForm(v: Value, parse: Reparse)
    requires WellFormed(v)
    ensures CanonicalValue(v, parse)
         == if Exact(v, parse) then Ok(Print(Normal(v, Printed), Canonically)) else Err(NonExactNumber)
    decreases v, 0
  {
    match v {
      case Num(num) =>
        CanonicalNumberText(num, parse);
        BareDigitText(num);
      case Arr(items) =>
        RendersItems(items, parse);
        var r := CanonicalItems(items, parse);
        if r.Ok? {
          JoinList(r.value, ']');
          Reassociate("[", Join(r.value), "]");
          assert r.value == ItemTexts(Normal(v, Printed).items, Canonically);
          PrintArray(Normal(v, Printed).items, Canonically);
        }
      case Obj(entries) =>
        SortedKeysPresent(entries);
        RendersMembers(entries, SortKeys(Keys(entries)), parse);
        RendersObject(entries, parse);
      case _ =>
    }
  }

  lemma {:induction false} RendersItems(items: seq<Value>, parse: Reparse)
    requires forall i :: 0 <= i < |items| ==> WellFormed(items[i])
    ensures var r := CanonicalItems(items, parse);
      && (r.Ok? <==> forall i :: 0 <= i < |items| ==> Exact(items[i], parse))
      && (r.Err? ==> r.error == NonExactNumber)
      && (r.Ok? ==>
        && |r.value| == |items|
        && forall i :: 0 <= i < |items| ==> r.value[i] == Print(Normal(items[i], Printed), Canonically))
    decreases items, |items|
  {
    if items == [] {
    } else {
      RendersNormalForm(items[0], parse);
      var rest := items[1..];
      RendersItems(rest, parse);
      assert forall i :: 0 < i < |items| ==> items[i] == rest[i - 1];
      assert forall i :: 0 <= i < |rest| ==> rest[i] == items[i + 1];
    }
  }

  function NormalMember(entries: seq<Member>, key: string, reading: Reading): Member
    requires Find(entries, key) < |entries|
  {
    Member(key, Normal(entries[Find(entries, key)].value, reading))
  }

  /** The members named by `keys` render to their normal forms, in that order,
      unless one of them holds an inexact float. */
  predicate MembersRendered(entries: seq<Member>, keys: seq<string>, parse: Reparse)
    requires HasKeys(entries, keys)
  {
    var r := CanonicalMembers(entries, keys, parse);
    && (r.Ok? <==> forall i :: 0 <= i < |keys| ==> Exact(entries[Find(entries, keys[i])].value, parse))
    && (r.Err? ==> r.error == NonExactNumber)
    && (r.Ok? ==>
      && |r.value| == |keys|
      && forall i :: 0 <= i < |keys| ==>
        r.value[i] == MemberText(NormalMember(entries, keys[i], Printed), Canonically))
  }

  /** The value under the first key renders, and so do the other members. */
  lemma RendersOneMore(entries: seq<Member>, keys: seq<string>, parse: Reparse)
    requires keys != [] && HasKeys(entries, keys)
    requires var value := entries[Find(entries, keys[0])].value;
      CanonicalValue(value, parse)
      == if Exact(value, parse) then Ok(Print(Normal(value, Printed), Canonically)) else Err(NonExactNumber)
    requires MembersRendered(entries, keys[1..], parse)
    ensures MembersRendered(entries, keys, parse)
  {
    hide CanonicalValue;
    hide Exact;
    hide Print;
    hide Normal;
    hide Quote;
    var value, rest := entries[Find(entries, keys[0])].value, keys[1..];
    Reassociate(Quote(keys[0]), ":", Print(Normal(value, Printed), Canonically));
    assert forall i :: 0 < i < |keys| ==> keys[i] == rest[i - 1];
    assert forall i :: 0 <= i < |rest| ==> rest[i] == keys[i + 1];
  }

  lemma {:induction false} RendersMembers(entries: seq<Member>, keys: seq<string>, parse: Reparse)
    requires WellFormed(Obj(entries)) && HasKeys(entries, keys)
    ensures MembersRendered(entries, keys, parse)
    decreases entries, |keys|
  {
    if keys == [] {
    } else {
      RendersNormalForm(entries[Find(entries, keys[0])].value, parse);
      RendersMembers(entries, keys[1..], parse);
      RendersOneMore(entries, keys, parse);
    }
  }

  /** Sorting the keys reaches every member. */
  lemma SortedKeysCover(entries: seq<Member>, j: nat)
    requires DistinctKeys(entries) && j < |entries|
    ensures entries[j].key in SortKeys(Keys(entries)) && Find(entries, entries[j].key) == j
  {
    assert Keys(entries)[j] == entries[j].key;
  }

  lemma NormalMembers(entries: seq<Member>, reading: Reading)
    requires HasKeys(entries, SortKeys(Keys(entries)))
    ensures Normal(Obj(entries), reading).Obj?
    ensures var keys, normal := SortKeys(Keys(entries)), Normal(Obj(entries), reading).entries;
      |normal| == |keys| && forall i :: 0 <= i < |keys| ==> normal[i] == NormalMember(entries, keys[i], reading)
  {
  }

  lemma NormalMemberTexts(entries: seq<Member>, texts: seq<string>)
    requires HasKeys(entries, SortKeys(Keys(entries)))
    requires |texts| == |SortKeys(Keys(entries))|
    requires forall i :: 0 <= i < |texts| ==>
      texts[i] == MemberText(NormalMember(entries, SortKeys(Keys(entries))[i], Printed), Canonically)
    ensures texts == MemberTexts(Normal(Obj(entries), Printed).entries, Canonically)
  {
    NormalMembers(entries, Printed);
    var normal := Normal(Obj(entries), Printed).entries;
    forall i | 0 <= i < |texts| ensures texts[i] == MemberTexts(normal, Canonically)[i] {
    }
  }

  lemma ExactByKeys(entries: seq<Member>, keys: seq<string>, parse: Reparse)
    requires DistinctKeys(entries) && keys == SortKeys(Keys(entries)) && HasKeys(entries, keys)
    requires forall i :: 0 <= i < |keys| ==> Exact(entries[Find(entries, keys[i])].value, parse)
    ensures Exact(Obj(entries), parse)
  {
    forall j | 0 <= j < |entries| ensures Exact(entries[j].value, parse) {
      SortedKeysCover(entries, j);
      var i :| 0 <= i < |keys| && keys[i] == entries[j].key;
    }
  }

  lemma RendersObject(entries: seq<Member>, parse: Reparse)
    requires WellFormed(Obj(entries))
    requires HasKeys(entries, SortKeys(Keys(entries)))
    requires MembersRendered(entries, SortKeys(Keys(entries)), parse)
    ensures CanonicalValue(Obj(entries), parse)
         == if Exact(Obj(entries), parse) then Ok(Print(Normal(Obj(entries), Printed), Canonically))
            else Err(NonExactNumber)
  {
    var keys := SortKeys(Keys(entries));
    var r := CanonicalMembers(entries, keys, parse);
    if r.Ok? {
      ExactByKeys(entries, keys, parse);
      NormalMemberTexts(entries, r.value);
      var normal := Normal(Obj(entries), Printed).entries;
      JoinList(r.value, '}');
      Reassociate("{", Join(r.value), "}");
      NormalMembers(entries, Printed);
      PrintObject(normal, Canonically);
    }
  }

  // ----- what is printed reads back

  /** What may follow a value inside a larger text. */
  predicate Closed(x: string) {
    x == "" || x[0] == ',' || x[0] == ']' || x[0] == '}'
  }

  predicate Legible(v: Value, style: Style) {
    match v
    case Num(num) => LegibleNumber(style, num)
    case Arr(items) => forall i :: 0 <= i < |items| ==> Legible(items[i], style)
    case Obj(entries) => forall i :: 0 <= i < |entries| ==> Legible(entries[i].value, style)
    case _ => true
  }

  lemma NumberOpens(s: string, x: string, num: Number, numbers: NumberReader)
    requires NumberShaped(s) && Closed(x) && numbers(s) == Some(num)
    ensures ReadValue(s + x, numbers) == Some(Parsed(Num(num), x))
  {
    var all := s + x;
    SpanIsToken(IsNumeric, s, x);
    assert all[..|s|] == s && all[|s|..] == x;
    assert all[0] == s[0];
    hide Span;
    hide ReadItems;
    hide ReadMembers;
    hide ReadChars;
  }

  lemma ReadsNumber(num: Number, x: string, style: Style)
    requires Trusted(style) && LegibleNumber(style, num) && Closed(x)
    ensures ReadValue(Shown(style, num) + x, ReaderOf(style)) == Some(Parsed(Num(num), x))
  {
    ShownShape(style, num);
    ReadsShown(style, num);
    hide Trusted;
    hide ReaderOf;
    hide Shown;
    NumberOpens(Shown(style, num), x, num, ReaderOf(style));
  }

  lemma ReadsString(s: string, x: string, numbers: NumberReader)
    ensures ReadValue(Quote(s) + x, numbers) == Some(Parsed(Str(s), x))
  {
    ReadsQuote(s, x);
    hide Quote;
    hide ReadChars;
  }

  lemma ReadsLiteral(v: Value, x: string, style: Style)
    requires v.Null? || v.Bool?
    ensures ReadValue(Print(v, style) + x, ReaderOf(style)) == Some(Parsed(v, x))
  {
    var s := Print(v, style);
    var all := s + x;
    assert all[..|s|] == s && all[|s|..] == x;
    assert all[0] == s[0];
  }

  /** The first character of a value closes nothing. */
  lemma FirstChar(v: Value, style: Style)
    requires Trusted(style) && Legible(v, style)
    ensures Print(v, style) != "" && Print(v, style)[0] != ']'
  {
    if v.Num? {
      ShownShape(style, v.num);
    }
  }

  lemma ListOpens(parts: seq<string>, close: char, x: string)
    requires close == ']' || close == '}'
    ensures var list := List(parts, close, false, x);
      Closed(list) && list != "" && (parts == [] ==> list == [close] + x)
      && (parts != [] ==> list[0] == ',' && list[1..] == List(parts, close, true, x))
  {
    if parts != [] {
      var tail := parts[0] + List(parts[1..], close, false, x);
      assert ("," + tail)[1..] == tail == "" + tail;
    }
  }

  /** Printed, then read: the value comes back, and the text after it is left. */
  lemma {:induction false} ReadsPrint(v: Value, x: string, style: Style)
    requires Trusted(style) && Legible(v, style) && Closed(x)
    ensures ReadValue(Print(v, style) + x, ReaderOf(style)) == Some(Parsed(v, x))
    decreases v, 0
  {
    match v {
      case Num(num) => ReadsNumber(num, x, style);
      case Str(s) => ReadsString(s, x, ReaderOf(style));
      case Arr(items) => ReadsArray(items, x, style);
      case Obj(entries) => ReadsObject(entries, x, style);
      case _ => ReadsLiteral(v, x, style);
    }
  }

  lemma ReadsArray(items: seq<Value>, x: string, style: Style)
    requires Trusted(style) && Legible(Arr(items), style) && Closed(x)
    ensures ReadValue(Print(Arr(items), style) + x, ReaderOf(style)) == Some(Parsed(Arr(items), x))
    decreases items, |items| + 1
  {
    var texts := ItemTexts(items, style);
    var list := List(texts, ']', true, x);
    PrintArray(items, style);
    ListAppend(texts, ']', true, x);
    Reassociate("[", List(texts, ']', true, ""), x);
    assert ("[" + list)[1..] == list;
    if items == [] {
      assert list == "]" + x && list[1..] == x;
    } else {
      assert items[0] in items;
      FirstChar(items[0], style);
      assert list[0] == Print(items[0], style)[0];
      ReadsItems(items, x, style);
    }
    ArrayOpens(list, items, x, ReaderOf(style));
  }

  lemma ArrayOpens(list: string, items: seq<Value>, x: string, numbers: NumberReader)
    requires if items == [] then list == "]" + x
      else !("]" <= list) && ReadItems(list, numbers) == Some(Parsed(items, x))
    ensures ReadValue("[" + list, numbers) == Some(Parsed(Arr(items), x))
  {
    hide ReadItems;
    var all := "[" + list;
    assert all[0] == '[' && all[1..] == list;
    assert items == [] ==> all[2..] == x && "]" <= list;
  }

  /** One value, then the closing bracket or a comma and the rest. */
  lemma ItemsStep(s: string, first: Value, tail: string, rest: seq<Value>, x: string, numbers: NumberReader)
    requires ReadValue(s, numbers) == Some(Parsed(first, tail))
    requires if rest == [] then tail == "]" + x
      else tail != "" && tail[0] == ',' && ReadItems(tail[1..], numbers) == Some(Parsed(rest, x))
    ensures ReadItems(s, numbers) == Some(Parsed([first] + rest, x))
  {
    hide ReadValue;
    if rest == [] {
      assert "]" <= tail && tail[1..] == x && [first] + rest == [first];
    } else {
      assert "," <= tail && !("]" <= tail);
    }
  }

  lemma {:induction false} ReadsItems(items: seq<Value>, x: string, style: Style)
    requires Trusted(style) && Legible(Arr(items), style) && items != []
    ensures ReadItems(List(ItemTexts(items, style), ']', true, x), ReaderOf(style)) == Some(Parsed(items, x))
    decreases items, |items|
  {
    hide ReadItems;
    hide ReadValue;
    hide Trusted;
    hide ReaderOf;
    hide Print;
    var texts, rest := ItemTexts(items, style), items[1..];
    var tail := List(texts[1..], ']', false, x);
    assert texts[1..] == ItemTexts(rest, style);
    assert forall i :: 0 <= i < |rest| ==> rest[i] == items[i + 1];
    ListOpens(texts[1..], ']', x);
    ReadsPrint(items[0], tail, style);
    if rest != [] {
      ReadsItems(rest, x, style);
    }
    ItemsStep(Print(items[0], style) + tail, items[0], tail, rest, x, ReaderOf(style));
    assert List(texts, ']', true, x) == Print(items[0], style) + tail;
    assert items == [items[0]] + rest;
  }

  lemma MemberTextAppend(m: Member, x: string, style: Style)
    ensures MemberText(m, style) + x == Quote(m.key) + (":" + (Print(m.value, style) + x))
  {
    var k, v := Quote(m.key), Print(m.value, style);
    Reassociate(":", v, x);
    Reassociate(k, ":" + v, x);
  }

  lemma {:induction false} ReadsMember(m: Member, x: string, style: Style)
    requires Trusted(style) && Legible(m.value, style) && Closed(x)
    ensures ReadMember(MemberText(m, style) + x, ReaderOf(style)) == Some(Parsed(m, x))
    ensures (MemberText(m, style) + x)[0] == '"'
    decreases m, 0
  {
    var value := Print(m.value, style) + x;
    MemberTextAppend(m, x, style);
    ReadsQuote(m.key, ":" + value);
    ReadsPrint(m.value, x, style);
    assert (":" + value)[1..] == value;
    hide Quote;
    hide ReadChars;
    hide ReadValue;
    hide Print;
  }

  /** One member, then the closing brace or a comma and the rest. */
  lemma MembersStep(s: string, first: Member, tail: string, rest: seq<Member>, x: string, numbers: NumberReader)
    requires ReadMember(s, numbers) == Some(Parsed(first, tail))
    requires if rest == [] then tail == "}" + x
      else tail != "" && tail[0] == ',' && ReadMembers(tail[1..], numbers) == Some(Parsed(rest, x))
    ensures ReadMembers(s, numbers) == Some(Parsed([first] + rest, x))
  {
    hide ReadMember;
    if rest == [] {
      assert "}" <= tail && tail[1..] == x && [first] + rest == [first];
    } else {
      assert "," <= tail && !("}" <= tail);
    }
  }

  lemma {:induction false} ReadsMembers(entries: seq<Member>, x: string, style: Style)
    requires Trusted(style) && Legible(Obj(entries), style) && entries != []
    ensures ReadMembers(List(MemberTexts(entries, style), '}', true, x), ReaderOf(style)) == Some(Parsed(entries, x))
    ensures List(MemberTexts(entries, style), '}', true, x)[0] == '"'
    decreases entries, |entries|
  {
    hide ReadMembers;
    hide ReadMember;
    hide Trusted;
    hide ReaderOf;
    hide MemberText;
    var texts, rest := MemberTexts(entries, style), entries[1..];
    var tail := List(texts[1..], '}', false, x);
    assert texts[1..] == MemberTexts(rest, style);
    assert forall i :: 0 <= i < |rest| ==> rest[i] == entries[i + 1];
    ListOpens(texts[1..], '}', x);
    ReadsMember(entries[0], tail, style);
    if rest != [] {
      ReadsMembers(rest, x, style);
    }
    MembersStep(MemberText(entries[0], style) + tail, entries[0], tail, rest, x, ReaderOf(style));
    assert List(texts, '}', true, x) == MemberText(entries[0], style) + tail;
    assert entries == [entries[0]] + rest;
  }

  lemma ObjectOpens(list: string, entries: seq<Member>, x: string, numbers: NumberReader)
    requires if entries == [] then list == "}" + x
      else !("}" <= list) && ReadMembers(list, numbers) == Some(Parsed(entries, x))
    ensures ReadValue("{" + list, numbers) == Some(Parsed(Obj(entries), x))
  {
    hide ReadMembers;
    var all := "{" + list;
    assert all[0] == '{' && all[1..] == list;
    assert entries == [] ==> all[2..] == x && "}" <= list;
  }

  lemma ReadsObject(entries: seq<Member>, x: string, style: Style)
    requires Trusted(style) && Legible(Obj(entries), style) && Closed(x)
    ensures ReadValue(Print(Obj(entries), style) + x, ReaderOf(style)) == Some(Parsed(Obj(entries), x))
    decreases entries, |entries| + 1
  {
    var texts := MemberTexts(entries, style);
    var list := List(texts, '}', true, x);
    PrintObject(entries, style);
    ListAppend(texts, '}', true, x);
    Reassociate("{", List(texts, '}', true, ""), x);
    if entries != [] {
      ReadsMembers(entries, x, style);
    }
    ObjectOpens(list, entries, x, ReaderOf(style));
  }

  /** Two printed values at the head of the same text are the same value. */
  lemma PrintReadable(a: Value, b: Value, x: string, y: string, style: Style)
    requires Trusted(style) && Legible(a, style) && Legible(b, style)
    requires Closed(x) && Closed(y)
    requires Print(a, style) + x == Print(b, style) + y
    ensures a == b && x == y
  {
    ReadsPrint(a, x, style);
    ReadsPrint(b, y, style);
  }
}
