/**
 * The JSON texts that the verification bridge exchanges: the values, every way of writing one
 * under sections 2 to 7 of RFC 8259, and the bounded schema that the bridge admits.
 */
module ChallengeJson {

  import opened Wrappers

  const MAX_TEXT: nat := 16384
  const MAX_DIGITS: nat := 16
  const MAX_MEMBERS: nat := 16
  const MAX_DEPTH: nat := 3

  datatype Field = Field(key: string, value: Json)

  datatype Json =
    | Text(text: string)
    | Number(digits: string)
    | Object(fields: seq<Field>)
    | Array(items: seq<Json>)

  // --------------------------------------------------------------- characters

  predicate Blank(c: char) { c == ' ' || c == '\n' || c == '\r' || c == '\t' }

  predicate Blanks(s: string) { forall c :: c in s ==> Blank(c) }

  predicate Digit(c: char) { '0' <= c <= '9' }

  predicate PrintableChar(c: char) { 0x20 <= c as int <= 0x7e }

  function HexDigit(c: char): (r: Option<nat>)
    ensures r.Some? ==> r.value < 16
  {
    if '0' <= c <= '9' then Some(c as nat - '0' as nat)
    else if 'a' <= c <= 'f' then Some(c as nat - 'a' as nat + 10)
    else if 'A' <= c <= 'F' then Some(c as nat - 'A' as nat + 10)
    else None
  }

  predicate HexString(h: string) { forall c :: c in h ==> HexDigit(c).Some? }

  function HexValue(h: string): (r: nat)
    requires HexString(h)
  {
    if h == "" then 0 else HexValue(h[..|h| - 1]) * 16 + HexDigit(h[|h| - 1]).value
  }

  // -------------------------------------------------------- every way to write

  /** One character of a string literal: as itself, after a backslash, or by its code. */
  datatype Unit = Plain(c: char) | Escaped(e: char) | Coded(h: string)

  predicate ValidUnit(u: Unit) {
    match u
    case Plain(c) => c >= ' ' && c != '\"' && c != '\\'
    case Escaped(e) => e in "\"\\/bfnrt"
    case Coded(h) => |h| == 4 && HexString(h)
  }

  function UnitText(u: Unit): string {
    match u
    case Plain(c) => [c]
    case Escaped(e) => ['\\', e]
    case Coded(h) => "\\u" + h
  }

  /** The character a unit stands for; a lone surrogate code stands for none and is replaced. */
  function UnitChar(u: Unit): char
    requires ValidUnit(u)
  {
    match u
    case Plain(c) => c
    case Escaped(e) =>
      if e == 'b' then 8 as char
      else if e == 'f' then 12 as char
      else if e == 'n' then 10 as char
      else if e == 'r' then 13 as char
      else if e == 't' then 9 as char
      else e
    case Coded(h) =>
      var n := HexValue(h);
      if n < 0xD800 then n as char
      else if 0xE000 <= n < 0x10000 then n as char
      else 0xFFFD as char
  }

  predicate ValidUnits(units: seq<Unit>) { forall u :: u in units ==> ValidUnit(u) }

  function UnitsText(units: seq<Unit>): string {
    if units == [] then "" else UnitText(units[0]) + UnitsText(units[1..])
  }

  function UnitsString(units: seq<Unit>): string
    requires ValidUnits(units)
  {
    if units == [] then "" else [UnitChar(units[0])] + UnitsString(units[1..])
  }

  /** A string literal with the blanks before it. */
  datatype Literal = Literal(before: string, units: seq<Unit>)

  predicate ValidLiteral(l: Literal) { Blanks(l.before) && ValidUnits(l.units) }

  function LiteralText(l: Literal): string { l.before + "\"" + UnitsText(l.units) + "\"" }

  /** A value as written: the value, and the freedom the grammar leaves in writing it. */
  datatype Tree =
    | TextTree(literal: Literal)
    | NumberTree(before: string, digits: string)
    | Container(before: string, braces: bool, items: Items, inside: string)

  /** The members of an object, each after its name and a colon, or the elements of an array. */
  datatype Items = End | Item(name: Name, value: Tree, after: string, rest: Items)

  datatype Name = Name(literal: Literal, after: string)

  predicate ValidNumber(digits: string) {
    digits != "" && (forall c :: c in digits ==> Digit(c)) && (digits[0] == '0' ==> |digits| == 1)
  }

  predicate ValidTree(t: Tree) {
    match t
    case TextTree(literal) => ValidLiteral(literal)
    case NumberTree(before, digits) => Blanks(before) && ValidNumber(digits)
    case Container(before, braces, items, inside) => Blanks(before) && Blanks(inside) && ValidItems(items)
  }

  predicate ValidItems(items: Items) {
    match items
    case End => true
    case Item(name, value, after, rest) =>
      ValidLiteral(name.literal) && Blanks(name.after) && ValidTree(value) && Blanks(after) && ValidItems(rest)
  }

  function Opener(braces: bool): char { if braces then '{' else '[' }

  function Closer(braces: bool): char { if braces then '}' else ']' }

  function NameText(braces: bool, name: Name): string {
    if braces then LiteralText(name.literal) + (name.after + ":") else ""
  }

  function Written(t: Tree): string {
    match t
    case TextTree(literal) => LiteralText(literal)
    case NumberTree(before, digits) => before + digits
    case Container(before, braces, items, inside) =>
      before + ([Opener(braces)] + (inside + (if items.End? then [Closer(braces)] else WrittenItems(braces, items))))
  }

  function WrittenItems(braces: bool, items: Items): string
    requires items.Item?
    decreases items
  {
    NameText(braces, items.name) +
    (Written(items.value) +
     (items.after +
      (if items.rest.End? then [Closer(braces)] else [','] + WrittenItems(braces, items.rest))))
  }

  function Meaning(t: Tree): Json
    requires ValidTree(t)
  {
    match t
    case TextTree(literal) => Text(UnitsString(literal.units))
    case NumberTree(before, digits) => Number(digits)
    case Container(before, braces, items, inside) =>
      if braces then Object(Fields(items)) else Array(Elements(items))
  }

  function Fields(items: Items): seq<Field>
    requires ValidItems(items)
  {
    match items
    case End => []
    case Item(name, value, after, rest) => [Field(UnitsString(name.literal.units), Meaning(value))] + Fields(rest)
  }

  function Elements(items: Items): seq<Json>
    requires ValidItems(items)
  {
    match items
    case End => []
    case Item(name, value, after, rest) => [Meaning(value)] + Elements(rest)
  }

  /** A JSON text for `v`: a value with blanks around it. */
  ghost predicate JsonText(s: string, v: Json) {
    exists t: Tree, tail: string :: ValidTree(t) && Blanks(tail) && Meaning(t) == v && s == Written(t) + tail
  }

  // --------------------------------------------------------------- the schema

  predicate ShortText(s: string) {
    |s| <= MAX_TEXT && forall c :: c in s ==> PrintableChar(c)
  }

  predicate DistinctKeys(fields: seq<Field>) {
    forall i, j :: 0 <= i < j < |fields| ==> fields[i].key != fields[j].key
  }

  /** The values the bridge admits `depth` levels down. */
  predicate InSchema(v: Json, depth: nat) {
    depth <= MAX_DEPTH &&
    match v
    case Text(text) => ShortText(text)
    case Number(digits) => ValidNumber(digits) && |digits| <= MAX_DIGITS
    case Object(fields) =>
      && |fields| <= MAX_MEMBERS
      && DistinctKeys(fields)
      && (forall f :: f in fields ==> ShortText(f.key) && InSchema(f.value, depth + 1))
    case Array(items) =>
      && |items| <= MAX_MEMBERS
      && (forall x :: x in items ==> InSchema(x, depth + 1))
  }
}
