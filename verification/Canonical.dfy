/** Canonical JSON and the preimages of content digests.

    The rendering is hashed and signed throughout the platform, so what matters
    is which values share a text.  `CanonicalEquality` answers that exactly. */
module Canonical {
  import opened Prelude
  import opened Json
  import opened Text

  datatype CanonicalizationError = NonFiniteNumber | NonExactNumber | UnsafeInteger

  /** How the JSON library reads a number text back. */
  type Reparse = string -> Option<Float>

  type Rendered = Result<string, CanonicalizationError>

  // ----- rendering

  function TrimEnd(s: string, c: char): string {
    if s != "" && s[|s| - 1] == c then TrimEnd(s[..|s| - 1], c) else s
  }

  function TrimStart(s: string, c: char): string {
    if s != "" && s[0] == c then TrimStart(s[1..], c) else s
  }

  function DropPointZero(s: string): string {
    if |s| >= 2 && s[|s| - 2..] == ".0" then s[..|s| - 2] else s
  }

  /** The part of a float's scientific notation before the exponent mark. */
  function Mantissa(f: Float): string
    requires f.Scientific?
  {
    (if f.negative then "-" else "") + [f.lead] + (if f.fraction == "" then "" else "." + f.fraction)
  }

  function CanonicalNumber(num: Number, parse: Reparse): Rendered {
    match num
    case Integer(n) => Ok(IntText(n))
    case Decimal(Zero(_)) => Ok("0")
    case Decimal(f) =>
      var integer := TrimEnd(TrimEnd(Mantissa(f), '0'), '.');
      if f.exponent == 0 && integer != "" then Ok(integer)
      else
        var trimmed := TrimStart(IntText(f.exponent), '0');
        var exponent := if trimmed == "" then "0" else trimmed;
        if parse(Mantissa(f) + "e" + exponent) != Some(f) then Err(NonExactNumber)
        else Ok(DropPointZero(Mantissa(f)) + "e" + exponent)
  }

  function Keys(entries: seq<Member>): seq<string> {
    seq(|entries|, i requires 0 <= i < |entries| => entries[i].key)
  }

  predicate HasKeys(entries: seq<Member>, keys: seq<string>) {
    forall i :: 0 <= i < |keys| ==> Find(entries, keys[i]) < |entries|
  }

  lemma SortedKeysPresent(entries: seq<Member>)
    ensures HasKeys(entries, SortKeys(Keys(entries)))
  {
    var keys := Keys(entries);
    forall k | k in keys ensures Find(entries, k) < |entries| {
      var i :| 0 <= i < |keys| && keys[i] == k;
      assert entries[i].key == k;
    }
    forall i | 0 <= i < |SortKeys(keys)| ensures SortKeys(keys)[i] in keys {
      assert SortKeys(keys)[i] in SortKeys(keys);
    }
  }

  function Join(parts: seq<string>): string {
    if parts == [] then ""
    else if |parts| == 1 then parts[0]
    else parts[0] + "," + Join(parts[1..])
  }

  function CanonicalValue(v: Value, parse: Reparse): Rendered
    decreases v, 0
  {
    match v
    case Null => Ok("null")
    case Bool(b) => Ok(if b then "true" else "false")
    case Num(num) => CanonicalNumber(num, parse)
    case Str(s) => Ok(Quote(s))
    case Arr(items) =>
      (match CanonicalItems(items, parse)
       case Ok(parts) => Ok("[" + Join(parts) + "]")
       case Err(e) => Err(e))
    case Obj(entries) =>
      SortedKeysPresent(entries);
      (match CanonicalMembers(entries, SortKeys(Keys(entries)), parse)
       case Ok(parts) => Ok("{" + Join(parts) + "}")
       case Err(e) => Err(e))
  }

  function CanonicalItems(items: seq<Value>, parse: Reparse): Result<seq<string>, CanonicalizationError>
    decreases items, |items|
  {
    if items == [] then Ok([])
    else
      match CanonicalValue(items[0], parse)
      case Err(e) => Err(e)
      case Ok(first) =>
        match CanonicalItems(items[1..], parse)
        case Err(e) => Err(e)
        case Ok(rest) => Ok([first] + rest)
  }

  function CanonicalMembers(entries: seq<Member>, keys: seq<string>, parse: Reparse)
    : Result<seq<string>, CanonicalizationError>
    requires HasKeys(entries, keys)
    decreases entries, |keys|
  {
    if keys == [] then Ok([])
    else
      match CanonicalValue(entries[Find(entries, keys[0])].value, parse)
      case Err(e) => Err(e)
      case Ok(value) =>
        match CanonicalMembers(entries, keys[1..], parse)
        case Err(e) => Err(e)
        case Ok(rest) => Ok([Quote(keys[0]) + ":" + value] + rest)
  }

  // ----- what a rendering stands for

  /** Floats that print exactly like an integer: zero, and one digit with no
      fraction and no exponent. */
  predicate PrintsAsInteger(num: Number) {
    num.Decimal? && (num.f.Zero? || (num.f.fraction == "" && num.f.exponent == 0))
  }

  function Meaning(num: Number): Number {
    if !PrintsAsInteger(num) then num
    else if num.f.Zero? then Integer(0)
    else
      var digit := (num.f.lead as int) - ('0' as int);
      Integer(if num.f.negative then -digit else digit)
  }

  /** Three ways to tell numbers apart: by the text the renderer gives them, by
      the JSON library's equality, for which the two zeros are one, and by what
      is written. */
  datatype Reading = Printed | Compared | Written

  function Read(reading: Reading, num: Number): Number {
    match reading
    case Printed => Meaning(num)
    case Compared => if num.Decimal? && num.f.Zero? then Decimal(Zero(false)) else num
    case Written => num
  }

  /** Structural agreement regardless of member order, numbers compared as the
      reading says. */
  predicate Agree(a: Value, b: Value, reading: Reading) {
    match (a, b)
    case (Num(x), Num(y)) => Read(reading, x) == Read(reading, y)
    case (Arr(x), Arr(y)) =>
      |x| == |y| && forall i :: 0 <= i < |x| ==> Agree(x[i], y[i], reading)
    case (Obj(x), Obj(y)) =>
      |x| == |y| && forall i :: 0 <= i < |x| ==>
        Find(y, x[i].key) < |y| && Agree(x[i].value, y[Find(y, x[i].key)].value, reading)
    case _ => a == b
  }

  /** The number texts the renderer produces when it does not fail. */
  function NumberText(num: Number): string {
    match num
    case Integer(n) => IntText(n)
    case Decimal(Zero(_)) => "0"
    case Decimal(f) => Mantissa(f) + (if f.exponent == 0 then "" else "e" + IntText(f.exponent))
  }

  predicate ExactNumber(num: Number, parse: Reparse) {
    num.Decimal? && num.f.Scientific? && num.f.exponent != 0 ==> parse(NumberText(num)) == Some(num.f)
  }

  predicate Exact(v: Value, parse: Reparse) {
    match v
    case Num(num) => ExactNumber(num, parse)
    case Arr(items) => forall i :: 0 <= i < |items| ==> Exact(items[i], parse)
    case Obj(entries) => forall i :: 0 <= i < |entries| ==> Exact(entries[i].value, parse)
    case _ => true
  }

  /** Members in key order, numbers as read. */
  function Normal(v: Value, reading: Reading): Value {
    match v
    case Num(num) => Num(Read(reading, num))
    case Arr(items) => Arr(seq(|items|, i requires 0 <= i < |items| => Normal(items[i], reading)))
    case Obj(entries) =>
      var keys := SortKeys(Keys(entries));
      SortedKeysPresent(entries);
      Obj(seq(|keys|, i requires 0 <= i < |keys| =>
        Member(keys[i], Normal(entries[Find(entries, keys[i])].value, reading))))
    case _ => v
  }

  /** No float that prints as an integer, anywhere. */
  predicate Plain(v: Value) {
    match v
    case Num(num) => !PrintsAsInteger(num)
    case Arr(items) => forall i :: 0 <= i < |items| ==> Plain(items[i])
    case Obj(entries) => forall i :: 0 <= i < |entries| ==> Plain(entries[i].value)
    case _ => true
  }
}
