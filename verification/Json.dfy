/** JSON values as the platform handles them, and the accessors the checks use. */
module Json {
  import opened Prelude

  /** A finite, non-integer-typed number, written as the shortest decimal that
      denotes it: a signed zero, or `lead.fraction * 10^exponent`. */
  datatype Float =
    | Zero(negative: bool)
    | Scientific(negative: bool, lead: char, fraction: string, exponent: int)

  datatype Number = Integer(n: int) | Decimal(f: Float)

  datatype Value =
    | Null
    | Bool(b: bool)
    | Num(num: Number)
    | Str(s: string)
    | Arr(items: seq<Value>)
    | Obj(entries: seq<Member>)

  /** One object member; `entries` lists members in insertion order. */
  datatype Member = Member(key: string, value: Value)

  predicate IsDigit(c: char) {
    '0' <= c <= '9'
  }

  /** Shortest decimals have a non-zero leading digit and no trailing zero. */
  predicate WellFormedFloat(f: Float) {
    f.Scientific? ==>
      && '1' <= f.lead <= '9'
      && (forall i :: 0 <= i < |f.fraction| ==> IsDigit(f.fraction[i]))
      && (f.fraction != "" ==> f.fraction[|f.fraction| - 1] != '0')
  }

  predicate DistinctKeys(entries: seq<Member>) {
    forall i, j :: 0 <= i < j < |entries| ==> entries[i].key != entries[j].key
  }

  /** Every float is a shortest decimal and no object repeats a key. */
  predicate WellFormed(v: Value) {
    match v
    case Num(Decimal(f)) => WellFormedFloat(f)
    case Arr(items) => forall i :: 0 <= i < |items| ==> WellFormed(items[i])
    case Obj(entries) =>
      && DistinctKeys(entries)
      && forall i :: 0 <= i < |entries| ==> WellFormed(entries[i].value)
    case _ => true
  }

  /** Position of the first member named `key`, or the number of members. */
  function Find(entries: seq<Member>, key: string): (i: nat)
    ensures i <= |entries|
    ensures i < |entries| ==> entries[i].key == key
    ensures forall j :: 0 <= j < i ==> entries[j].key != key
  {
    if entries == [] || entries[0].key == key then 0
    else
      var i := Find(entries[1..], key) + 1;
      assert forall j :: 0 < j < |entries| ==> entries[j] == entries[1..][j - 1];
      i
  }

  function Get(v: Value, key: string): Option<Value> {
    if v.Obj? && Find(v.entries, key) < |v.entries|
    then Some(v.entries[Find(v.entries, key)].value)
    else None
  }

  function AsString(v: Option<Value>): Option<string> {
    if v.Some? && v.value.Str? then Some(v.value.s) else None
  }

  function GetString(v: Value, key: string): Option<string> {
    AsString(Get(v, key))
  }

  function GetNat(v: Value, key: string): Option<nat> {
    match Get(v, key)
    case Some(Num(Integer(n))) => if 0 <= n <= U64_MAX then Some(n) else None
    case _ => None
  }

  /** The Unicode White_Space property. */
  predicate IsWhitespace(c: char) {
    var n := c as int;
    || 0x9 <= n <= 0xD || n == 0x20 || n == 0x85 || n == 0xA0 || n == 0x1680
    || 0x2000 <= n <= 0x200A || n == 0x2028 || n == 0x2029 || n == 0x202F
    || n == 0x205F || n == 0x3000
  }

  predicate IsBlank(s: string) {
    forall i :: 0 <= i < |s| ==> IsWhitespace(s[i])
  }
}
