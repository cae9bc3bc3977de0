/** JSON texts: what the printer of `JSON.stringify` writes for a value, and a reader written from sections 2 to 7 of
    RFC 8259.  Texts are sequences of UTF-16 code units. */
module JsonText {
  import opened Wrappers

  type Unit = n: int | 0 <= n < 0x10000

  type Text = seq<Unit>

  /** A finite number: plus or minus `digits` times ten to the power of `exponent`, with the digits that section 9.8.1
      of ECMA-262 (edition 5.1) picks for it. */
  datatype Numeral = Numeral(negative: bool, digits: nat, exponent: int)

  /** What the printer is given.  `Absent` stands for undefined and for functions; `NonFinite` for NaN and the
      infinities. */
  datatype Value =
    | Null
    | Bool(b: bool)
    | Number(d: Numeral)
    | NonFinite
    | String(s: Text)
    | Array(items: seq<Value>)
    | Object(members: seq<Member>)
    | Absent

  datatype Member = Member(key: Text, value: Value)

  /** What the reader gives: the number is `mantissa` times ten to the power of `exponent`. */
  datatype Json =
    | JNull
    | JBool(b: bool)
    | JNumber(mantissa: int, exponent: int)
    | JString(s: Text)
    | JArray(items: seq<Json>)
    | JObject(members: seq<JMember>)

  datatype JMember = JMember(key: Text, value: Json)

  const TAB: Unit := 9
  const LF: Unit := 10
  const CR: Unit := 13
  const SPACE: Unit := 32
  const QUOTE: Unit := 34
  const PLUS: Unit := 43
  const COMMA: Unit := 44
  const MINUS: Unit := 45
  const DOT: Unit := 46
  const COLON: Unit := 58
  const OPEN: Unit := 91
  const BACKSLASH: Unit := 92
  const CLOSE: Unit := 93
  const BEGIN: Unit := 123
  const END: Unit := 125

  const NULL: Text := [110, 117, 108, 108]
  const TRUE: Text := [116, 114, 117, 101]
  const FALSE: Text := [102, 97, 108, 115, 101]

  // ---------- the printer ----------

  /** The characters that are written as escapes. */
  predicate Escapable(c: Unit) {
    c == BACKSLASH || c == QUOTE || c <= 0x1f || 0x7f <= c <= 0x9f || c == 0xad || 0x600 <= c <= 0x604 || c == 0x70f
    || c == 0x17b4 || c == 0x17b5 || 0x200c <= c <= 0x200f || 0x2028 <= c <= 0x202f || 0x2060 <= c <= 0x206f
    || c == 0xfeff || 0xfff0 <= c
  }

  function HexDigit(d: int): Unit
    requires 0 <= d < 16
  {
    if d < 10 then 48 + d else 87 + d
  }

  function Hex4(c: Unit): Text {
    [HexDigit(c / 4096), HexDigit(c / 256 % 16), HexDigit(c / 16 % 16), HexDigit(c % 16)]
  }

  /** The letter of a short escape, 0 if the character has none. */
  function Letter(c: Unit): Unit {
    if c == 8 then 98 else if c == TAB then 116 else if c == LF then 110 else if c == 12 then 102
    else if c == CR then 114 else if c == QUOTE then QUOTE else if c == BACKSLASH then BACKSLASH else 0
  }

  function Escaped(c: Unit): Text {
    if !Escapable(c) then [c]
    else if Letter(c) != 0 then [BACKSLASH, Letter(c)]
    else [BACKSLASH, 117] + Hex4(c)
  }

  function EscapedAll(s: Text): Text {
    if s == [] then [] else Escaped(s[0]) + EscapedAll(s[1..])
  }

  function Quote(s: Text): Text {
    [QUOTE] + EscapedAll(s) + [QUOTE]
  }

  function Decimal(n: nat): (ds: Text)
    ensures ds != []
  {
    if n < 10 then [48 + n] else Decimal(n / 10) + [48 + n % 10]
  }

  function Zeros(n: nat): (zeros: Text)
    ensures |zeros| == n
  {
    seq(n, _ => 48)
  }

  /** The fraction of a text, with its dot if there is one. */
  function Fraction(ds: Text): Text {
    if ds == [] then [] else [DOT] + ds
  }

  function ExponentText(x: int): Text {
    [101, if x < 0 then MINUS else PLUS] + Decimal(if x < 0 then -x else x)
  }

  /** `String(value)` for a positive number: with all its digits, with a fraction, or with an exponent. */
  function PositiveText(digits: nat, exponent: int): Text {
    var ds := Decimal(digits);
    var k := |ds|;
    var n := exponent + k;
    if k <= n <= 21 then ds + Zeros(n - k)
    else if 0 < n <= 21 then ds[..n] + Fraction(ds[n..])
    else if -6 < n <= 0 then [48] + Fraction(Zeros(-n) + ds)
    else ds[..1] + Fraction(ds[1..]) + ExponentText(n - 1)
  }

  /** `String(value)`; both zeros are written the same. */
  function NumeralText(d: Numeral): Text {
    if d.digits == 0 then [48]
    else if d.negative then [MINUS] + PositiveText(d.digits, d.exponent)
    else PositiveText(d.digits, d.exponent)
  }

  function Join(parts: seq<Text>, sep: Text): Text {
    if parts == [] then []
    else if |parts| == 1 then parts[0]
    else parts[0] + sep + Join(parts[1..], sep)
  }

  /** The parts of an array or object between its brackets, each on a line of its own if there is a gap. */
  function Block(open: Unit, parts: seq<Text>, gap: Text, mind: Text, close: Unit): Text {
    if parts == [] then [open, close]
    else if gap != [] then [open, LF] + gap + Join(parts, [COMMA, LF] + gap) + [LF] + mind + [close]
    else [open] + Join(parts, [COMMA]) + [close]
  }

  /** The text of a value that is not absent; `gap` is the indentation of the line it is on. */
  function Printed(v: Value, gap: Text, indent: Text): Text
    requires v != Absent
    decreases v
  {
    match v
    case Null => NULL
    case NonFinite => NULL
    case Bool(b) => if b then TRUE else FALSE
    case Number(d) => NumeralText(d)
    case String(s) => Quote(s)
    case Array(items) => Block(OPEN, ItemTexts(items, gap + indent, indent), gap + indent, gap, CLOSE)
    case Object(members) => Block(BEGIN, MemberTexts(members, gap + indent, indent), gap + indent, gap, END)
  }

  /** Absent items are written as null. */
  function ItemTexts(items: seq<Value>, gap: Text, indent: Text): (texts: seq<Text>)
    ensures |texts| == |items|
    decreases items
  {
    if items == [] then []
    else [if items[0] == Absent then NULL else Printed(items[0], gap, indent)] + ItemTexts(items[1..], gap, indent)
  }

  function MemberText(m: Member, gap: Text, indent: Text): Text
    requires m.value != Absent
    decreases m
  {
    Quote(m.key) + (if gap != [] then [COLON, SPACE] else [COLON]) + Printed(m.value, gap, indent)
  }

  /** Members with an absent value are left out. */
  function MemberTexts(members: seq<Member>, gap: Text, indent: Text): seq<Text>
    decreases members
  {
    if members == [] then []
    else
      (if members[0].value == Absent then [] else [MemberText(members[0], gap, indent)])
      + MemberTexts(members[1..], gap, indent)
  }

  // ---------- the reader ----------

  /** What was read, and the text after it. */
  datatype Read<T> = Read(value: T, rest: Text)

  predicate Blank(c: Unit) {
    c == SPACE || c == TAB || c == LF || c == CR
  }

  function Skip(t: Text): (rest: Text)
    ensures |rest| <= |t|
    ensures rest != [] ==> !Blank(rest[0])
  {
    if t != [] && Blank(t[0]) then Skip(t[1..]) else t
  }

  predicate Digit(c: Unit) {
    48 <= c <= 57
  }

  /** *DIGIT */
  function ReadDigits(t: Text): (r: Read<Text>)
    ensures |r.value| + |r.rest| == |t|
  {
    if t != [] && Digit(t[0]) then
      var r := ReadDigits(t[1..]);
      Read([t[0]] + r.value, r.rest)
    else Read([], t)
  }

  function NumberOf(ds: Text): int {
    if ds == [] then 0 else NumberOf(ds[..|ds| - 1]) * 10 + ds[|ds| - 1] - 48
  }

  /** int = zero / ( digit1-9 *DIGIT ) */
  function ReadWhole(t: Text): (r: Read<Text>)
    requires t != [] && Digit(t[0])
    ensures |r.rest| < |t|
  {
    if t[0] == 48 then Read([48], t[1..]) else ReadDigits(t)
  }

  /** The digits of frac = "." 1*DIGIT, none if there is no fraction. */
  function ReadFraction(t: Text): (r: Read<Text>)
    ensures |r.rest| <= |t|
  {
    if t != [] && t[0] == DOT && ReadDigits(t[1..]).value != [] then ReadDigits(t[1..]) else Read([], t)
  }

  predicate Sign(c: Unit) {
    c == MINUS || c == PLUS
  }

  /** exp = ("e" / "E") [ "-" / "+" ] 1*DIGIT, 0 if there is no exponent. */
  function ReadExponent(t: Text): (r: Read<int>)
    ensures |r.rest| <= |t|
  {
    if t == [] || (t[0] != 101 && t[0] != 69) then Read(0, t)
    else
      var signed := |t| > 1 && Sign(t[1]);
      var ds := ReadDigits(if signed then t[2..] else t[1..]);
      if ds.value == [] then Read(0, t)
      else Read(if signed && t[1] == MINUS then -NumberOf(ds.value) else NumberOf(ds.value), ds.rest)
  }

  /** int [ frac ] [ exp ] */
  function ParseUnsigned(t: Text): (r: Option<Read<Json>>)
    ensures r.Some? ==> |r.value.rest| < |t| && r.value.value.JNumber?
  {
    if t == [] || !Digit(t[0]) then None
    else
      var whole := ReadWhole(t);
      var frac := ReadFraction(whole.rest);
      var exp := ReadExponent(frac.rest);
      Some(Read(JNumber(NumberOf(whole.value + frac.value), exp.value - |frac.value|), exp.rest))
  }

  function ParseNumber(t: Text): (r: Option<Read<Json>>)
    ensures r.Some? ==> |r.value.rest| < |t| && r.value.value.JNumber?
  {
    if t != [] && t[0] == MINUS then
      match ParseUnsigned(t[1..])
      case None => None
      case Some(Read(v, rest)) => Some(Read(JNumber(-v.mantissa, v.exponent), rest))
    else ParseUnsigned(t)
  }

  function HexValue(c: Unit): int {
    if Digit(c) then c - 48 else if 97 <= c <= 102 then c - 87 else if 65 <= c <= 70 then c - 55 else -1
  }

  /** The character of an escape sequence, given without its backslash, and the length of it. */
  function ParseEscape(t: Text): (r: Option<Read<Unit>>)
    ensures r.Some? ==> |r.value.rest| < |t|
  {
    if t == [] then None
    else if t[0] == QUOTE || t[0] == BACKSLASH || t[0] == 47 then Some(Read(t[0], t[1..]))
    else if t[0] == 98 then Some(Read(8, t[1..]))
    else if t[0] == 102 then Some(Read(12, t[1..]))
    else if t[0] == 110 then Some(Read(LF, t[1..]))
    else if t[0] == 114 then Some(Read(CR, t[1..]))
    else if t[0] == 116 then Some(Read(TAB, t[1..]))
    else if t[0] == 117 && |t| >= 5 && HexValue(t[1]) >= 0 && HexValue(t[2]) >= 0 && HexValue(t[3]) >= 0
        && HexValue(t[4]) >= 0 then
      Some(Read(HexValue(t[1]) * 4096 + HexValue(t[2]) * 256 + HexValue(t[3]) * 16 + HexValue(t[4]), t[5..]))
    else None
  }

  /** A string, without its opening quotation mark. */
  function ParseString(t: Text): (r: Option<Read<Text>>)
    ensures r.Some? ==> |r.value.rest| < |t|
    decreases |t|
  {
    if t == [] || t[0] < 0x20 then None
    else if t[0] == QUOTE then Some(Read([], t[1..]))
    else
      var c := if t[0] == BACKSLASH then ParseEscape(t[1..]) else Some(Read(t[0], t[1..]));
      if c.None? then None
      else
        match ParseString(c.value.rest)
        case None => None
        case Some(Read(s, rest)) => Some(Read([c.value.value] + s, rest))
  }

  predicate StartsWith(t: Text, prefix: Text) {
    |prefix| <= |t| && t[..|prefix|] == prefix
  }

  function ParseValue(t: Text): (r: Option<Read<Json>>)
    ensures r.Some? ==> |r.value.rest| < |t|
    decreases |t|, 0
  {
    if StartsWith(t, NULL) then Some(Read(JNull, t[4..]))
    else if StartsWith(t, TRUE) then Some(Read(JBool(true), t[4..]))
    else if StartsWith(t, FALSE) then Some(Read(JBool(false), t[5..]))
    else if t != [] && t[0] == QUOTE then
      match ParseString(t[1..])
      case None => None
      case Some(Read(s, rest)) => Some(Read(JString(s), rest))
    else if t != [] && t[0] == OPEN then
      var u := Skip(t[1..]);
      if u != [] && u[0] == CLOSE then Some(Read(JArray([]), u[1..]))
      else
        match ParseElements(u)
        case None => None
        case Some(Read(items, rest)) => Some(Read(JArray(items), rest))
    else if t != [] && t[0] == BEGIN then
      var u := Skip(t[1..]);
      if u != [] && u[0] == END then Some(Read(JObject([]), u[1..]))
      else
        match ParseMembers(u)
        case None => None
        case Some(Read(members, rest)) => Some(Read(JObject(members), rest))
    else ParseNumber(t)
  }

  /** One or more values and the closing bracket. */
  function ParseElements(t: Text): (r: Option<Read<seq<Json>>>)
    ensures r.Some? ==> |r.value.rest| < |t| && r.value.value != []
    decreases |t|, 1
  {
    match ParseValue(t)
    case None => None
    case Some(Read(v, rest)) =>
      var u := Skip(rest);
      if u != [] && u[0] == CLOSE then Some(Read([v], u[1..]))
      else if u != [] && u[0] == COMMA then
        match ParseElements(Skip(u[1..]))
        case None => None
        case Some(Read(vs, rest')) => Some(Read([v] + vs, rest'))
      else None
  }

  function ParseMember(t: Text): (r: Option<Read<JMember>>)
    ensures r.Some? ==> |r.value.rest| < |t|
    decreases |t|, 1
  {
    if t == [] || t[0] != QUOTE then None
    else
      match ParseString(t[1..])
      case None => None
      case Some(Read(key, rest)) =>
        var u := Skip(rest);
        if u == [] || u[0] != COLON then None
        else
          match ParseValue(Skip(u[1..]))
          case None => None
          case Some(Read(v, rest')) => Some(Read(JMember(key, v), rest'))
  }

  function ParseMembers(t: Text): (r: Option<Read<seq<JMember>>>)
    ensures r.Some? ==> |r.value.rest| < |t|
    decreases |t|, 2
  {
    match ParseMember(t)
    case None => None
    case Some(Read(m, rest)) =>
      var u := Skip(rest);
      if u != [] && u[0] == END then Some(Read([m], u[1..]))
      else if u != [] && u[0] == COMMA then
        match ParseMembers(Skip(u[1..]))
        case None => None
        case Some(Read(ms, rest')) => Some(Read([m] + ms, rest'))
      else None
  }

  /** JSON-text = ws value ws */
  function Parse(t: Text): Option<Json> {
    match ParseValue(Skip(t))
    case None => None
    case Some(Read(v, rest)) => if Skip(rest) == [] then Some(v) else None
  }

  // ---------- what is read back ----------

  function Pow10(n: nat): nat {
    if n == 0 then 1 else 10 * Pow10(n - 1)
  }

  /** The number itself.  One that is written with all its digits has the zeros at the end in its mantissa. */
  function MeantNumber(d: Numeral): Json {
    var full := d.digits == 0 || (d.exponent >= 0 && |Decimal(d.digits)| + d.exponent <= 21);
    var m := if d.digits != 0 && full then d.digits * Pow10(d.exponent) else d.digits;
    JNumber(if d.negative then -m else m, if full then 0 else d.exponent)
  }

  /** Absent items and numbers that are not finite become null, and absent members are dropped. */
  function Meant(v: Value): Json
    decreases v
  {
    match v
    case Null => JNull
    case NonFinite => JNull
    case Absent => JNull
    case Bool(b) => JBool(b)
    case Number(d) => MeantNumber(d)
    case String(s) => JString(s)
    case Array(items) => JArray(MeantItems(items))
    case Object(members) => JObject(MeantMembers(members))
  }

  function MeantItems(items: seq<Value>): seq<Json>
    decreases items
  {
    if items == [] then [] else [Meant(items[0])] + MeantItems(items[1..])
  }

  function MeantMembers(members: seq<Member>): seq<JMember>
    decreases members
  {
    if members == [] then []
    else
      (if members[0].value == Absent then [] else [JMember(members[0].key, Meant(members[0].value))])
      + MeantMembers(members[1..])
  }
}
