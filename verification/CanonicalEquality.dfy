/** The central law of canonical JSON: which values share a text, and where
    that differs from equality of values. */
module CanonicalEquality {
  import opened Prelude
  import opened Json
  import opened JsonReader
  import opened Text
  import opened Canonical
  import opened CanonicalNumbers
  import opened CanonicalTheorems

  // ----- the normal form decides agreement

  /** A reading whose numbers the style prints legibly. */
  predicate Fits(style: Style, reading: Reading) {
    style.Canonically? ==> reading.Printed?
  }

  lemma {:induction false} NormalIsLegible(v: Value, reading: Reading, style: Style)
    requires WellFormed(v) && Fits(style, reading)
    ensures Legible(Normal(v, reading), style)
  {
    match v {
      case Arr(items) =>
        forall i | 0 <= i < |items| ensures Legible(Normal(items[i], reading), style) {
          NormalIsLegible(items[i], reading, style);
        }
      case Obj(entries) =>
        SortedKeysPresent(entries);
        var keys := SortKeys(Keys(entries));
        forall i | 0 <= i < |keys| ensures Legible(NormalMember(entries, keys[i], reading).value, style) {
          NormalIsLegible(entries[Find(entries, keys[i])].value, reading, style);
        }
        NormalMembers(entries, reading);
      case _ =>
    }
  }

  /** Sorted and printed in a trusted style, values share a text exactly when they
      agree as read. */
  lemma SortedTextIffAgree(a: Value, b: Value, reading: Reading, style: Style)
    requires WellFormed(a) && WellFormed(b) && Fits(style, reading) && Trusted(style)
    ensures Print(Normal(a, reading), style) == Print(Normal(b, reading), style) <==> Agree(a, b, reading)
  {
    NormalAgreement(a, b, reading);
    NormalIsLegible(a, reading, style);
    NormalIsLegible(b, reading, style);
    if Print(Normal(a, reading), style) == Print(Normal(b, reading), style) {
      assert Print(Normal(a, reading), style) + "" == Print(Normal(b, reading), style) + "";
      PrintReadable(Normal(a, reading), Normal(b, reading), "", "", style);
    }
  }

  lemma {:induction false} NormalAgreement(a: Value, b: Value, reading: Reading)
    requires WellFormed(a) && WellFormed(b)
    ensures Normal(a, reading) == Normal(b, reading) <==> Agree(a, b, reading)
    decreases a
  {
    match (a, b) {
      case (Arr(x), Arr(y)) =>
        if |x| == |y| {
          forall i | 0 <= i < |x|
            ensures Normal(x[i], reading) == Normal(y[i], reading) <==> Agree(x[i], y[i], reading)
          {
            NormalAgreement(x[i], y[i], reading);
          }
          if Normal(a, reading) == Normal(b, reading) {
            forall i | 0 <= i < |x| ensures Normal(x[i], reading) == Normal(y[i], reading) {
              assert Normal(a, reading).items[i] == Normal(b, reading).items[i];
            }
          }
        } else {
          assert |Normal(a, reading).items| == |x| && |Normal(b, reading).items| == |y|;
        }
      case (Obj(x), Obj(y)) =>
        forall i, j | 0 <= i < |x| && 0 <= j < |y|
          ensures Normal(x[i].value, reading) == Normal(y[j].value, reading) <==> Agree(x[i].value, y[j].value, reading)
        {
          NormalAgreement(x[i].value, y[j].value, reading);
        }
        ObjectAgreement(x, y, reading);
      case _ =>
    }
  }

  /** Same members under the same names, compared by normal form. */
  predicate SameMembers(x: seq<Member>, y: seq<Member>, reading: Reading) {
    |x| == |y| && forall i :: 0 <= i < |x| ==>
      Find(y, x[i].key) < |y| && Normal(x[i].value, reading) == Normal(y[Find(y, x[i].key)].value, reading)
  }

  lemma {:induction false} ObjectAgreement(x: seq<Member>, y: seq<Member>, reading: Reading)
    requires DistinctKeys(x) && DistinctKeys(y)
    requires forall i, j :: 0 <= i < |x| && 0 <= j < |y| ==>
      (Normal(x[i].value, reading) == Normal(y[j].value, reading) <==> Agree(x[i].value, y[j].value, reading))
    ensures Normal(Obj(x), reading) == Normal(Obj(y), reading) <==> Agree(Obj(x), Obj(y), reading)
  {
    assert SameMembers(x, y, reading) <==> Agree(Obj(x), Obj(y), reading);
    if SameMembers(x, y, reading) {
      SameMembersSameNormal(x, y, reading);
    }
    if Normal(Obj(x), reading) == Normal(Obj(y), reading) {
      SameNormalSameMembers(x, y, reading);
    }
  }

  function KeySet(entries: seq<Member>): set<string> {
    set i | 0 <= i < |entries| :: entries[i].key
  }

  lemma InKeySet(entries: seq<Member>, k: string)
    ensures k in KeySet(entries) <==> Find(entries, k) < |entries|
    ensures k in KeySet(entries) <==> k in Keys(entries)
  {
    if k in KeySet(entries) {
      var i :| 0 <= i < |entries| && entries[i].key == k;
      assert Keys(entries)[i] == k;
    }
    if k in Keys(entries) {
      var i :| 0 <= i < |entries| && Keys(entries)[i] == k;
      assert entries[i].key == k;
    }
    if Find(entries, k) < |entries| {
      assert entries[Find(entries, k)].key == k;
    }
  }

  lemma AscendingKeys(entries: seq<Member>)
    requires DistinctKeys(entries)
    ensures Ascending(SortKeys(Keys(entries)))
  {
    SortKeysAscending(Keys(entries));
  }

  lemma KeySetWithin(x: seq<Member>, y: seq<Member>)
    requires forall i :: 0 <= i < |x| ==> Find(y, x[i].key) < |y|
    ensures KeySet(x) <= KeySet(y)
  {
    forall k | k in KeySet(x) ensures k in KeySet(y) {
      var i :| 0 <= i < |x| && x[i].key == k;
      InKeySet(y, k);
    }
  }

  /** A name-preserving injection between equally long member lists is onto. */
  lemma KeysOnto(x: seq<Member>, y: seq<Member>)
    requires DistinctKeys(x) && DistinctKeys(y) && |x| == |y|
    requires forall i :: 0 <= i < |x| ==> Find(y, x[i].key) < |y|
    ensures forall k :: k in Keys(x) <==> k in Keys(y)
  {
    KeyCount(x);
    KeyCount(y);
    KeySetWithin(x, y);
    SubsetOfSameSize(KeySet(x), KeySet(y));
    forall k ensures k in Keys(x) <==> k in Keys(y) {
      InKeySet(x, k);
      InKeySet(y, k);
    }
  }

  lemma {:induction false} KeyCount(x: seq<Member>)
    requires DistinctKeys(x)
    ensures |KeySet(x)| == |x|
  {
    if x == [] {
    } else {
      var rest := x[..|x| - 1];
      var last := x[|x| - 1].key;
      KeyCount(rest);
      assert last !in KeySet(rest);
      assert KeySet(x) == KeySet(rest) + {last};
    }
  }

  lemma SubsetOfSameSize(a: set<string>, b: set<string>)
    requires a <= b && |a| == |b|
    ensures a == b
  {
    assert b == a + (b - a);
    assert |b| == |a| + |b - a|;
  }

  lemma SameMembersSameNormal(x: seq<Member>, y: seq<Member>, reading: Reading)
    requires DistinctKeys(x) && DistinctKeys(y) && SameMembers(x, y, reading)
    ensures Normal(Obj(x), reading) == Normal(Obj(y), reading)
  {
    KeysOnto(x, y);
    AscendingKeys(x);
    AscendingKeys(y);
    var keys := SortKeys(Keys(x));
    AscendingUnique(keys, SortKeys(Keys(y)));
    SortedKeysPresent(x);
    SortedKeysPresent(y);
    NormalMembers(x, reading);
    NormalMembers(y, reading);
    forall i | 0 <= i < |keys| ensures NormalMember(x, keys[i], reading) == NormalMember(y, keys[i], reading) {
      var j := Find(x, keys[i]);
      assert x[j].key == keys[i];
    }
    assert Normal(Obj(x), reading).entries == Normal(Obj(y), reading).entries;
  }

  lemma SameNormalSameKeys(x: seq<Member>, y: seq<Member>, reading: Reading)
    requires Normal(Obj(x), reading) == Normal(Obj(y), reading)
    ensures SortKeys(Keys(x)) == SortKeys(Keys(y)) && KeySet(x) == KeySet(y)
  {
    SortedKeysPresent(x);
    SortedKeysPresent(y);
    NormalMembers(x, reading);
    NormalMembers(y, reading);
    var kx, ky := SortKeys(Keys(x)), SortKeys(Keys(y));
    var normal := Normal(Obj(x), reading).entries;
    forall i | 0 <= i < |kx| ensures kx[i] == ky[i] {
      assert normal[i].key == kx[i] == ky[i];
    }
    assert kx == ky;
    forall k ensures k in KeySet(x) <==> k in KeySet(y) {
      InKeySet(x, k);
      InKeySet(y, k);
    }
  }

  lemma SameNormalSameMembers(x: seq<Member>, y: seq<Member>, reading: Reading)
    requires DistinctKeys(x) && DistinctKeys(y)
    requires Normal(Obj(x), reading) == Normal(Obj(y), reading)
    ensures SameMembers(x, y, reading)
  {
    SameNormalSameKeys(x, y, reading);
    KeyCount(x);
    KeyCount(y);
    SortedKeysPresent(x);
    SortedKeysPresent(y);
    NormalMembers(x, reading);
    NormalMembers(y, reading);
    var keys := SortKeys(Keys(x));
    forall i | 0 <= i < |x|
      ensures Find(y, x[i].key) < |y| && Normal(x[i].value, reading) == Normal(y[Find(y, x[i].key)].value, reading)
    {
      SortedKeysCover(x, i);
      var j :| 0 <= j < |keys| && keys[j] == x[i].key;
      assert NormalMember(x, keys[j], reading) == NormalMember(y, keys[j], reading);
    }
  }

  // ----- the law

  lemma {:induction false} ExactnessAgrees(a: Value, b: Value, parse: Reparse)
    requires WellFormed(a) && WellFormed(b) && Agree(a, b, Printed) && Exact(b, parse)
    ensures Exact(a, parse)
  {
    match (a, b) {
      case (Arr(x), Arr(y)) =>
        forall i | 0 <= i < |x| ensures Exact(x[i], parse) {
          ExactnessAgrees(x[i], y[i], parse);
        }
      case (Obj(x), Obj(y)) =>
        forall i | 0 <= i < |x| ensures Exact(x[i].value, parse) {
          ExactnessAgrees(x[i].value, y[Find(y, x[i].key)].value, parse);
        }
      case _ =>
    }
  }

  lemma AgreeSymmetric(a: Value, b: Value)
    requires WellFormed(a) && WellFormed(b) && Agree(a, b, Printed)
    ensures Agree(b, a, Printed)
  {
    NormalAgreement(a, b, Printed);
    NormalAgreement(b, a, Printed);
  }

  /** Two values render to the same text exactly when they agree up to member
      order and up to reading a bare-digit float as an integer; agreeing values
      also fail together. */
  lemma SameTextIffAgree(a: Value, b: Value, parse: Reparse)
    requires WellFormed(a) && WellFormed(b)
    ensures Agree(a, b, Printed) ==> CanonicalValue(a, parse) == CanonicalValue(b, parse)
    ensures CanonicalValue(a, parse).Ok? && CanonicalValue(a, parse) == CanonicalValue(b, parse)
      ==> Agree(a, b, Printed)
  {
    RendersNormalForm(a, parse);
    RendersNormalForm(b, parse);
    SortedTextIffAgree(a, b, Printed, Canonically);
    if Agree(a, b, Printed) {
      AgreeSymmetric(a, b);
      if Exact(b, parse) { ExactnessAgrees(a, b, parse); }
      if Exact(a, parse) { ExactnessAgrees(b, a, parse); }
    }
  }

  // ----- what the text says

  /** In every object, members follow the code-point order of their names. */
  ghost predicate InOrder(v: Value) {
    match v
    case Arr(items) => forall i :: 0 <= i < |items| ==> InOrder(items[i])
    case Obj(entries) =>
      && (forall i, j :: 0 <= i < j < |entries| ==> FirstSmaller(entries[i].key, entries[j].key))
      && forall i :: 0 <= i < |entries| ==> InOrder(entries[i].value)
    case _ => true
  }

  lemma KeysInOrder(keys: seq<string>)
    requires Ascending(keys)
    ensures forall i, j :: 0 <= i < j < |keys| ==> FirstSmaller(keys[i], keys[j]) && keys[i] != keys[j]
  {
    hide FirstSmaller;
    forall i, j | 0 <= i < j < |keys| ensures FirstSmaller(keys[i], keys[j]) && keys[i] != keys[j] {
      LessIsLexicographic(keys[i], keys[j]);
      LessTotal(keys[i], keys[i]);
    }
  }

  lemma {:induction false} NormalInOrder(v: Value, reading: Reading)
    requires WellFormed(v)
    ensures InOrder(Normal(v, reading))
  {
    hide FirstSmaller;
    match v {
      case Arr(items) =>
        forall i | 0 <= i < |items| ensures InOrder(Normal(items[i], reading)) {
          NormalInOrder(items[i], reading);
        }
      case Obj(entries) =>
        SortedKeysPresent(entries);
        AscendingKeys(entries);
        var keys := SortKeys(Keys(entries));
        KeysInOrder(keys);
        forall i | 0 <= i < |keys| ensures InOrder(NormalMember(entries, keys[i], reading).value) {
          NormalInOrder(entries[Find(entries, keys[i])].value, reading);
        }
        NormalMembers(entries, reading);
      case _ =>
    }
  }

  /** The normal form says what the value says. */
  lemma {:induction false} NormalAgrees(v: Value)
    requires WellFormed(v)
    ensures Agree(v, Normal(v, Printed), Printed)
  {
    match v {
      case Arr(items) =>
        forall i | 0 <= i < |items| ensures Agree(items[i], Normal(items[i], Printed), Printed) {
          NormalAgrees(items[i]);
        }
      case Obj(entries) =>
        forall i | 0 <= i < |entries| ensures Agree(entries[i].value, Normal(entries[i].value, Printed), Printed) {
          NormalAgrees(entries[i].value);
        }
        NormalObjectAgrees(entries);
      case _ =>
    }
  }

  lemma NormalObjectAgrees(entries: seq<Member>)
    requires DistinctKeys(entries)
    requires forall i :: 0 <= i < |entries| ==> Agree(entries[i].value, Normal(entries[i].value, Printed), Printed)
    ensures Agree(Obj(entries), Normal(Obj(entries), Printed), Printed)
  {
    var keys, normal := SortKeys(Keys(entries)), Normal(Obj(entries), Printed).entries;
    SortedKeysPresent(entries);
    NormalMembers(entries, Printed);
    AscendingKeys(entries);
    KeysInOrder(keys);
    hide Normal;
    hide Agree;
    assert DistinctKeys(normal);
    forall i | 0 <= i < |entries|
      ensures Find(normal, entries[i].key) < |normal|
      ensures normal[Find(normal, entries[i].key)].value == Normal(entries[i].value, Printed)
    {
      SortedKeysCover(entries, i);
      var j :| 0 <= j < |keys| && keys[j] == entries[i].key;
      assert normal[j].key == entries[i].key;
      assert Find(normal, entries[i].key) == j;
    }
    SameKeyCount(entries, normal, keys);
    AgreeMembers(entries, normal);
  }

  lemma SameKeyCount(x: seq<Member>, y: seq<Member>, keys: seq<string>)
    requires DistinctKeys(x) && DistinctKeys(y) && keys == SortKeys(Keys(x)) && |y| == |keys|
    requires forall j :: 0 <= j < |keys| ==> y[j].key == keys[j]
    ensures |x| == |y|
  {
    KeyCount(x);
    KeyCount(y);
    forall k ensures k in KeySet(x) <==> k in KeySet(y) {
      InKeySet(x, k);
      InKeySet(y, k);
      assert k in Keys(x) <==> k in keys;
      if k in keys {
        var j :| 0 <= j < |keys| && keys[j] == k;
        assert y[j].key == k;
      }
    }
    assert KeySet(x) == KeySet(y);
  }

  lemma AgreeMembers(x: seq<Member>, y: seq<Member>)
    requires |x| == |y|
    requires forall i :: 0 <= i < |x| ==>
      Find(y, x[i].key) < |y| && Agree(x[i].value, y[Find(y, x[i].key)].value, Printed)
    ensures Agree(Obj(x), Obj(y), Printed)
  {
  }

  /** The canonical text of a value, read as JSON, denotes the value itself, with the
      members of every object in order; a value has none exactly when it holds a
      float without an exact text. */
  lemma CanonicalTextReads(v: Value, parse: Reparse)
    requires WellFormed(v)
    ensures CanonicalValue(v, parse).Ok? <==> Exact(v, parse)
    ensures CanonicalValue(v, parse).Ok? ==>
      var w := ReadText(CanonicalValue(v, parse).value);
      w == Some(Normal(v, Printed)) && Agree(v, w.value, Printed) && InOrder(w.value)
  {
    RendersNormalForm(v, parse);
    NormalAgrees(v);
    NormalInOrder(v, Printed);
    NormalIsLegible(v, Printed, Canonically);
    var w := Normal(v, Printed);
    ReadsPrint(w, "", Canonically);
    assert Print(w, Canonically) + "" == Print(w, Canonically);
    hide ReadValue;
    hide CanonicalValue;
  }

  // ----- where it meets equality of values

  lemma {:induction false} PlainAgreement(a: Value, b: Value)
    requires Plain(a) && Plain(b)
    ensures Agree(a, b, Printed) <==> Agree(a, b, Compared)
  {
    match (a, b) {
      case (Arr(x), Arr(y)) =>
        forall i | 0 <= i < |x| && i < |y| ensures Agree(x[i], y[i], Printed) <==> Agree(x[i], y[i], Compared) {
          PlainAgreement(x[i], y[i]);
        }
      case (Obj(x), Obj(y)) =>
        forall i, j | 0 <= i < |x| && 0 <= j < |y|
          ensures Agree(x[i].value, y[j].value, Printed) <==> Agree(x[i].value, y[j].value, Compared)
        {
          PlainAgreement(x[i].value, y[j].value);
        }
      case _ =>
    }
  }

  /** Without bare-digit floats, rendering is injective up to equality. */
  lemma PlainValuesInjective(a: Value, b: Value, parse: Reparse)
    requires WellFormed(a) && WellFormed(b) && Plain(a) && Plain(b)
    requires CanonicalValue(a, parse).Ok?
    ensures CanonicalValue(a, parse) == CanonicalValue(b, parse) <==> Agree(a, b, Compared)
  {
    SameTextIffAgree(a, b, parse);
    PlainAgreement(a, b);
  }

  /** Every bare-digit float replaced by the integer it prints as. */
  function Integral(v: Value): Value {
    match v
    case Num(num) => Num(Meaning(num))
    case Arr(items) => Arr(seq(|items|, i requires 0 <= i < |items| => Integral(items[i])))
    case Obj(entries) =>
      Obj(seq(|entries|, i requires 0 <= i < |entries| => Member(entries[i].key, Integral(entries[i].value))))
    case _ => v
  }

  lemma IntegralEntries(entries: seq<Member>)
    requires DistinctKeys(entries)
    ensures Integral(Obj(entries)).Obj? && |Integral(Obj(entries)).entries| == |entries|
    ensures forall i :: 0 <= i < |entries| ==>
      Integral(Obj(entries)).entries[i] == Member(entries[i].key, Integral(entries[i].value))
    ensures DistinctKeys(Integral(Obj(entries)).entries)
    ensures forall i :: 0 <= i < |entries| ==> Find(Integral(Obj(entries)).entries, entries[i].key) == i
  {
  }

  lemma {:induction false} IntegralAgrees(v: Value)
    requires WellFormed(v)
    ensures WellFormed(Integral(v)) && Plain(Integral(v)) && Agree(v, Integral(v), Printed)
    ensures Agree(v, Integral(v), Compared) ==> Plain(v)
  {
    match v {
      case Arr(items) =>
        forall i | 0 <= i < |items|
          ensures WellFormed(Integral(items[i]))
          ensures Plain(Integral(items[i])) && Agree(items[i], Integral(items[i]), Printed)
          ensures Agree(items[i], Integral(items[i]), Compared) ==> Plain(items[i])
        {
          IntegralAgrees(items[i]);
        }
      case Obj(entries) =>
        IntegralEntries(entries);
        forall i | 0 <= i < |entries|
          ensures var w := entries[i].value;
            && WellFormed(Integral(w)) && Plain(Integral(w)) && Agree(w, Integral(w), Printed)
            && (Agree(w, Integral(w), Compared) ==> Plain(w))
        {
          IntegralAgrees(entries[i].value);
        }
      case _ =>
    }
  }

  /** The restriction is exact: a value that does hold a bare-digit float shares
      its text with a different value, one that holds none. */
  lemma BareDigitFloatsCollide(v: Value, parse: Reparse)
    requires WellFormed(v) && !Plain(v)
    ensures var w := Integral(v);
      WellFormed(w) && Plain(w) && !Agree(v, w, Compared) && CanonicalValue(v, parse) == CanonicalValue(w, parse)
  {
    IntegralAgrees(v);
    SameTextIffAgree(v, Integral(v), parse);
  }
}
