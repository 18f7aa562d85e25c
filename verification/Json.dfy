/** The canonical text of a request body: keys sorted, compact separators, characters outside
    ASCII left as they are (RFC 8259, sections 4 to 7, for the grammar it stays within). */
module Json {

  datatype Field = Field(key: string, value: Json)

  /** A JSON value as the decoder hands it over: object fields are in insertion order. */
  datatype Json =
    | Null
    | Bool(b: bool)
    | Num(n: int)
    | Str(s: string)
    | Arr(items: seq<Json>)
    | Obj(fields: seq<Field>)

  // ---- Sorting the keys ----

  /** Code-point order on strings. */
  predicate Less(a: string, b: string) {
    b != [] && (a == [] || a[0] < b[0] || (a[0] == b[0] && Less(a[1..], b[1..])))
  }

  function Insert(f: Field, sorted: seq<Field>): seq<Field> {
    if sorted == [] || Less(f.key, sorted[0].key) then [f] + sorted
    else [sorted[0]] + Insert(f, sorted[1..])
  }

  function SortFields(fields: seq<Field>): seq<Field> {
    if fields == [] then [] else Insert(fields[0], SortFields(fields[1..]))
  }

  /** The value with every object's fields in key order. */
  function Canon(j: Json): Json
    decreases j, 0
  {
    match j
    case Arr(items) => Arr(CanonItems(items))
    case Obj(fields) => Obj(SortFields(CanonFields(fields)))
    case _ => j
  }

  function CanonItems(items: seq<Json>): (r: seq<Json>)
    ensures |r| == |items|
    ensures forall i :: 0 <= i < |items| ==> r[i] == Canon(items[i])
    decreases items, 0
  {
    if items == [] then [] else [Canon(items[0])] + CanonItems(items[1..])
  }

  function CanonFields(fields: seq<Field>): (r: seq<Field>)
    ensures |r| == |fields|
    ensures forall i :: 0 <= i < |fields| ==> r[i] == Field(fields[i].key, Canon(fields[i].value))
    decreases fields, 0
  {
    if fields == [] then []
    else
      var Field(key, value) := fields[0];
      assert fields decreases to fields[0];
      [Field(key, Canon(value))] + CanonFields(fields[1..])
  }

  // ---- Printing ----

  function HexDigit(n: nat): char
    requires n < 16
  {
    "0123456789abcdef"[n]
  }

  function Escape(c: char): string {
    if c == '\\' then "\\\\"
    else if c == '"' then "\\\""
    else if c == 8 as char then "\\b"
    else if c == 12 as char then "\\f"
    else if c == '\n' then "\\n"
    else if c == '\r' then "\\r"
    else if c == '\t' then "\\t"
    else if c < ' ' then "\\u00" + [HexDigit(c as int / 16), HexDigit(c as int % 16)]
    else [c]
  }

  function EscapeAll(s: string): string {
    if s == [] then [] else Escape(s[0]) + EscapeAll(s[1..])
  }

  function Quote(s: string): string {
    "\"" + EscapeAll(s) + "\""
  }

  function Digits(n: nat): string {
    if n < 10 then [HexDigit(n)] else Digits(n / 10) + [HexDigit(n % 10)]
  }

  function Print(j: Json): string
    decreases j, 0
  {
    match j
    case Null => "null"
    case Bool(b) => if b then "true" else "false"
    case Num(n) => if n < 0 then "-" + Digits(-n) else Digits(n)
    case Str(s) => Quote(s)
    case Arr(items) => "[" + PrintItems(items) + "]"
    case Obj(fields) => "{" + PrintFields(fields) + "}"
  }

  function PrintItems(items: seq<Json>): string
    decreases items, 0
  {
    if items == [] then ""
    else if |items| == 1 then Print(items[0])
    else Print(items[0]) + "," + PrintItems(items[1..])
  }

  function PrintFields(fields: seq<Field>): string
    decreases fields, 0
  {
    if fields == [] then ""
    else
      var Field(key, value) := fields[0];
      assert fields decreases to fields[0];
      Quote(key) + ":" + Print(value) + (if |fields| == 1 then "" else "," + PrintFields(fields[1..]))
  }

  /** The text that is hashed. */
  function Encode(j: Json): string {
    Print(Canon(j))
  }

  function RequestHash(digest: string -> string, body: Json): string {
    digest(Encode(body))
  }

  // ---- Reading the text back ----

  datatype Parsed<+T> = Fail | Got(value: T, rest: string)

  function HexValue(c: char): (n: int)
    ensures -1 <= n < 16
  {
    if '0' <= c <= '9' then c as int - '0' as int
    else if 'a' <= c <= 'f' then c as int - 'a' as int + 10
    else -1
  }

  /** One character of a string literal, escaped or not. */
  function ParseChar(t: string): (r: Parsed<char>)
    ensures r.Got? ==> |r.rest| < |t|
  {
    if t == [] || t[0] == '"' || t[0] < ' ' then Fail
    else if t[0] != '\\' then Got(t[0], t[1..])
    else if |t| == 1 then Fail
    else match t[1]
      case '\\' => Got('\\', t[2..])
      case '"' => Got('"', t[2..])
      case 'b' => Got(8 as char, t[2..])
      case 'f' => Got(12 as char, t[2..])
      case 'n' => Got('\n', t[2..])
      case 'r' => Got('\r', t[2..])
      case 't' => Got('\t', t[2..])
      case 'u' =>
        if |t| >= 6 && t[2..4] == "00" && HexValue(t[4]) >= 0 && HexValue(t[5]) >= 0
        then Got((HexValue(t[4]) * 16 + HexValue(t[5])) as char, t[6..])
        else Fail
      case _ => Fail
  }

  /** The rest of a string literal after its opening quote. */
  function ParseString(t: string): (r: Parsed<string>)
    ensures r.Got? ==> |r.rest| < |t|
    decreases |t|
  {
    if t != [] && t[0] == '"' then Got([], t[1..])
    else match ParseChar(t)
      case Fail => Fail
      case Got(c, rest) =>
        match ParseString(rest)
        case Fail => Fail
        case Got(s, after) => Got([c] + s, after)
  }

  predicate IsDigit(c: char) {
    '0' <= c <= '9'
  }

  function DigitRun(t: string): (k: nat)
    ensures k <= |t|
    ensures forall i :: 0 <= i < k ==> IsDigit(t[i])
  {
    if t != [] && IsDigit(t[0]) then 1 + DigitRun(t[1..]) else 0
  }

  function Value(digits: string): nat
    requires forall i :: 0 <= i < |digits| ==> IsDigit(digits[i])
  {
    if digits == [] then 0
    else
      var last := digits[|digits| - 1];
      assert IsDigit(last);
      Value(digits[..|digits| - 1]) * 10 + HexValue(last)
  }

  function ParseNat(t: string): (r: Parsed<nat>)
    ensures r.Got? ==> |r.rest| < |t|
  {
    var k := DigitRun(t);
    if k == 0 then Fail else Got(Value(t[..k]), t[k..])
  }

  function ParseWord(word: string, j: Json, t: string): (r: Parsed<Json>)
    requires word != []
    ensures r.Got? ==> |r.rest| < |t|
  {
    if word <= t then Got(j, t[|word|..]) else Fail
  }

  function ParseValue(t: string): (r: Parsed<Json>)
    ensures r.Got? ==> |r.rest| < |t|
    decreases |t|, 0
  {
    if t == [] then Fail
    else match t[0]
      case 'n' => ParseWord("null", Null, t)
      case 't' => ParseWord("true", Bool(true), t)
      case 'f' => ParseWord("false", Bool(false), t)
      case '"' =>
        (match ParseString(t[1..])
         case Fail => Fail
         case Got(s, rest) => Got(Str(s), rest))
      case '-' =>
        (match ParseNat(t[1..])
         case Fail => Fail
         case Got(n, rest) => Got(Num(-(n as int)), rest))
      case '[' => ParseArray(t)
      case '{' => ParseObject(t)
      case _ =>
        match ParseNat(t)
        case Fail => Fail
        case Got(n, rest) => Got(Num(n), rest)
  }

  function ParseArray(t: string): (r: Parsed<Json>)
    requires t != []
    ensures r.Got? ==> |r.rest| < |t|
    decreases |t| - 1, 3
  {
    if |t| > 1 && t[1] == ']' then Got(Arr([]), t[2..])
    else match ParseItems(t[1..])
      case Fail => Fail
      case Got(items, rest) => Got(Arr(items), rest)
  }

  function ParseObject(t: string): (r: Parsed<Json>)
    requires t != []
    ensures r.Got? ==> |r.rest| < |t|
    decreases |t| - 1, 3
  {
    if |t| > 1 && t[1] == '}' then Got(Obj([]), t[2..])
    else match ParseFields(t[1..])
      case Fail => Fail
      case Got(fields, rest) => Got(Obj(fields), rest)
  }

  /** One or more values separated by commas, up to and including the closing bracket. */
  function ParseItems(t: string): (r: Parsed<seq<Json>>)
    ensures r.Got? ==> |r.rest| < |t|
    decreases |t|, 1
  {
    match ParseValue(t)
    case Fail => Fail
    case Got(j, rest) =>
      if rest == [] then Fail
      else if rest[0] == ']' then Got([j], rest[1..])
      else if rest[0] != ',' then Fail
      else match ParseItems(rest[1..])
        case Fail => Fail
        case Got(js, after) => Got([j] + js, after)
  }

  function ParseField(t: string): (r: Parsed<Field>)
    ensures r.Got? ==> |r.rest| < |t|
    decreases |t|, 1
  {
    if t == [] || t[0] != '"' then Fail
    else match ParseString(t[1..])
      case Fail => Fail
      case Got(key, rest) =>
        if rest == [] || rest[0] != ':' then Fail
        else match ParseValue(rest[1..])
          case Fail => Fail
          case Got(value, after) => Got(Field(key, value), after)
  }

  function ParseFields(t: string): (r: Parsed<seq<Field>>)
    ensures r.Got? ==> |r.rest| < |t|
    decreases |t|, 2
  {
    match ParseField(t)
    case Fail => Fail
    case Got(f, rest) =>
      if rest == [] then Fail
      else if rest[0] == '}' then Got([f], rest[1..])
      else if rest[0] != ',' then Fail
      else match ParseFields(rest[1..])
        case Fail => Fail
        case Got(fs, after) => Got([f] + fs, after)
  }
}
