/** A reader of JSON text after RFC 8259, without insignificant whitespace, so that
    what it reads is compact.  Nothing here refers to how texts are written. */
module JsonReader {
  import opened Prelude
  import opened Json

  /** What was read, and the text after it. */
  datatype Parsed<+T> = Parsed(value: T, rest: string)

  // ----- strings (section 7)

  /** What a character after a backslash stands for. */
  function Unescaped(c: char): Option<char> {
    match c
    case '"' => Some('"')
    case '\\' => Some('\\')
    case '/' => Some('/')
    case 'b' => Some('\U{8}')
    case 'f' => Some('\U{C}')
    case 'n' => Some('\n')
    case 'r' => Some('\r')
    case 't' => Some('\t')
    case _ => None
  }

  function HexValue(c: char): (n: Option<nat>)
    ensures n.Some? ==> n.value < 16
  {
    if '0' <= c <= '9' then Some(c as int - '0' as int)
    else if 'a' <= c <= 'f' then Some(c as int - 'a' as int + 10)
    else if 'A' <= c <= 'F' then Some(c as int - 'A' as int + 10)
    else None
  }

  /** Four hexadecimal digits. */
  function CodeUnit(s: string): (n: Option<nat>)
    ensures n.Some? ==> |s| >= 4 && n.value < 0x10000
  {
    if |s| < 4 then None
    else
      match (HexValue(s[0]), HexValue(s[1]), HexValue(s[2]), HexValue(s[3]))
      case (Some(a), Some(b), Some(c), Some(d)) => Some(4096 * a + 256 * b + 16 * c + d)
      case _ => None
  }

  /** The rest of a `\u` escape: a code unit, or two that make a surrogate pair. */
  function ReadCodePoint(s: string): (r: Option<Parsed<char>>)
    ensures r.Some? ==> |r.value.rest| < |s|
  {
    match CodeUnit(s)
    case None => None
    case Some(high) =>
      if high < 0xD800 || 0xE000 <= high then Some(Parsed(high as char, s[4..]))
      else if 0xDC00 <= high || |s| < 6 || s[4] != '\\' || s[5] != 'u' then None
      else
        match CodeUnit(s[6..])
        case None => None
        case Some(low) =>
          if low < 0xDC00 || 0xE000 <= low then None
          else Some(Parsed((0x10000 + (high - 0xD800) * 0x400 + (low - 0xDC00)) as char, s[10..]))
  }

  /** One character of a string, from its text. */
  function ReadChar(s: string): (r: Option<Parsed<char>>)
    ensures r.Some? ==> |r.value.rest| < |s|
  {
    if s == "" then None
    else if s[0] == '\\' then
      if |s| < 2 then None
      else if s[1] == 'u' then ReadCodePoint(s[2..])
      else
        match Unescaped(s[1])
        case None => None
        case Some(c) => Some(Parsed(c, s[2..]))
    else if s[0] == '"' || s[0] < ' ' then None
    else Some(Parsed(s[0], s[1..]))
  }

  /** The characters up to the closing quotation mark, which is read too. */
  function ReadChars(s: string): (r: Option<Parsed<string>>)
    ensures r.Some? ==> |r.value.rest| < |s|
    decreases |s|
  {
    if s != "" && s[0] == '"' then Some(Parsed("", s[1..]))
    else
      match ReadChar(s)
      case None => None
      case Some(first) =>
        match ReadChars(first.rest)
        case None => None
        case Some(more) => Some(Parsed([first.value] + more.value, more.rest))
  }

  // ----- numbers (section 6)

  predicate IsNumeric(c: char) {
    IsDigit(c) || c == '-' || c == '+' || c == '.' || c == 'e' || c == 'E'
  }

  /** The length of the run of characters that satisfy `p`. */
  function Span(p: char -> bool, s: string): (n: nat)
    ensures n <= |s|
    ensures forall i :: 0 <= i < n ==> p(s[i])
    ensures n < |s| ==> !p(s[n])
  {
    if s == "" || !p(s[0]) then 0
    else
      assert forall i :: 0 < i < |s| ==> s[i] == s[1..][i - 1];
      1 + Span(p, s[1..])
  }

  /** The value of decimal digits by position, each worth ten of the next. */
  function DecimalValue(s: string): nat
    requires forall i :: 0 <= i < |s| ==> IsDigit(s[i])
  {
    if s == "" then 0
    else
      assert IsDigit(s[|s| - 1]);
      10 * DecimalValue(s[..|s| - 1]) + (s[|s| - 1] as int - '0' as int)
  }

  /** A sign and digits. */
  function SignedValue(s: string): Option<int> {
    var negative := s != "" && s[0] == '-';
    var digits := if s != "" && (s[0] == '-' || s[0] == '+') then s[1..] else s;
    if digits == "" || Span(IsDigit, digits) < |digits| then None
    else Some(if negative then -(DecimalValue(digits) as int) else DecimalValue(digits))
  }

  function LeadingZeros(s: string): (n: nat)
    ensures n <= |s| && (n < |s| ==> s[n] != '0')
  {
    if s != "" && s[0] == '0' then 1 + LeadingZeros(s[1..]) else 0
  }

  function WithoutTrailingZeros(s: string): string {
    if s != "" && s[|s| - 1] == '0' then WithoutTrailingZeros(s[..|s| - 1]) else s
  }

  /** The float of `0.digits * 10^scale`, with its sign, as its shortest decimal. */
  function FloatOf(negative: bool, digits: string, scale: int): Float {
    var zeros := LeadingZeros(digits);
    if zeros == |digits| then Zero(negative)
    else Scientific(negative, digits[zeros], WithoutTrailingZeros(digits[zeros + 1..]), scale - zeros - 1)
  }

  /** Nothing more, or an exponent. */
  function ReadExponent(negative: bool, digits: string, scale: nat, s: string): Option<Float> {
    if s == "" then Some(FloatOf(negative, digits, scale))
    else if s[0] != 'e' && s[0] != 'E' then None
    else
      match SignedValue(s[1..])
      case None => None
      case Some(exponent) => Some(FloatOf(negative, digits, scale + exponent))
  }

  /** A fraction, an exponent, or both, after the whole digits. */
  function ReadFraction(negative: bool, whole: string, s: string): Option<Float> {
    if s == "" || s[0] != '.' then ReadExponent(negative, whole, |whole|, s)
    else
      var places := Span(IsDigit, s[1..]);
      if places == 0 then None
      else ReadExponent(negative, whole + s[1..1 + places], |whole|, s[1 + places..])
  }

  /** The digits of an integer, or of a float with more after them. */
  function ReadMagnitude(negative: bool, s: string): Option<Number> {
    var n := Span(IsDigit, s);
    if n == 0 || (n > 1 && s[0] == '0') then None
    else if n == |s| then Some(Integer(if negative then -(DecimalValue(s) as int) else DecimalValue(s)))
    else
      match ReadFraction(negative, s[..n], s[n..])
      case None => None
      case Some(f) => Some(Decimal(f))
  }

  function ReadNumber(s: string): Option<Number> {
    if s != "" && s[0] == '-' then ReadMagnitude(true, s[1..]) else ReadMagnitude(false, s)
  }

  /** How the text of a number is read. */
  type NumberReader = string -> Option<Number>

  // ----- values (sections 3 to 5)

  /** One value at the head of a text. */
  function ReadValue(s: string, numbers: NumberReader): (r: Option<Parsed<Value>>)
    ensures r.Some? ==> |r.value.rest| < |s|
    decreases |s|, 0
  {
    if s == "" then None
    else if "null" <= s then Some(Parsed(Null, s[4..]))
    else if "true" <= s then Some(Parsed(Bool(true), s[4..]))
    else if "false" <= s then Some(Parsed(Bool(false), s[5..]))
    else if s[0] == '"' then
      match ReadChars(s[1..])
      case None => None
      case Some(text) => Some(Parsed(Str(text.value), text.rest))
    else if s[0] == '[' then
      if "]" <= s[1..] then Some(Parsed(Arr([]), s[2..]))
      else
        match ReadItems(s[1..], numbers)
        case None => None
        case Some(items) => Some(Parsed(Arr(items.value), items.rest))
    else if s[0] == '{' then
      if "}" <= s[1..] then Some(Parsed(Obj([]), s[2..]))
      else
        match ReadMembers(s[1..], numbers)
        case None => None
        case Some(entries) => Some(Parsed(Obj(entries.value), entries.rest))
    else
      var n := Span(IsNumeric, s);
      if n == 0 then None
      else
        match numbers(s[..n])
        case None => None
        case Some(num) => Some(Parsed(Num(num), s[n..]))
  }

  /** Values between commas, and the closing bracket. */
  function ReadItems(s: string, numbers: NumberReader): (r: Option<Parsed<seq<Value>>>)
    ensures r.Some? ==> |r.value.rest| < |s|
    decreases |s|, 1
  {
    match ReadValue(s, numbers)
    case None => None
    case Some(first) =>
      if "]" <= first.rest then Some(Parsed([first.value], first.rest[1..]))
      else if "," <= first.rest then
        match ReadItems(first.rest[1..], numbers)
        case None => None
        case Some(more) => Some(Parsed([first.value] + more.value, more.rest))
      else None
  }

  function ReadMember(s: string, numbers: NumberReader): (r: Option<Parsed<Member>>)
    ensures r.Some? ==> |r.value.rest| < |s|
    decreases |s|, 1
  {
    if s == "" || s[0] != '"' then None
    else
      match ReadChars(s[1..])
      case None => None
      case Some(key) =>
        if key.rest == "" || key.rest[0] != ':' then None
        else
          match ReadValue(key.rest[1..], numbers)
          case None => None
          case Some(v) => Some(Parsed(Member(key.value, v.value), v.rest))
  }

  /** Members between commas, and the closing brace. */
  function ReadMembers(s: string, numbers: NumberReader): (r: Option<Parsed<seq<Member>>>)
    ensures r.Some? ==> |r.value.rest| < |s|
    decreases |s|, 2
  {
    match ReadMember(s, numbers)
    case None => None
    case Some(first) =>
      if "}" <= first.rest then Some(Parsed([first.value], first.rest[1..]))
      else if "," <= first.rest then
        match ReadMembers(first.rest[1..], numbers)
        case None => None
        case Some(more) => Some(Parsed([first.value] + more.value, more.rest))
      else None
  }

  /** The value that a whole text denotes. */
  function ReadText(s: string): Option<Value> {
    match ReadValue(s, ReadNumber)
    case Some(Parsed(v, "")) => Some(v)
    case _ => None
  }
}
