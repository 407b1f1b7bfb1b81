/**
 * The parser as a function of the text still to read. It accepts exactly the JSON texts whose
 * value is in the schema, and returns that value.
 */
module Parsing {

  import opened ChallengeJson
  import opened Wrappers

  function SkipBlanks(s: string): (r: string)
    ensures |r| <= |s|
    ensures r != "" ==> !Blank(r[0])
  {
    if s != "" && Blank(s[0]) then SkipBlanks(s[1..]) else s
  }

  // ------------------------------------------------------------------ strings

  /** One character of a string literal, and what follows it. */
  function NextChar(s: string): (r: Option<(char, string)>)
    requires s != ""
    ensures r.Some? ==> |r.value.1| < |s|
  {
    if s[0] != '\\' then Some((s[0], s[1..]))
    else if |s| < 2 then None
    else if s[1] == 'u' then
      if |s| < 6 || !HexString(s[2..6]) then None
      else
        var n := HexValue(s[2..6]);
        if n < 0x20 || n > 0x7e then None else Some((n as char, s[6..]))
    else if s[1] == '\"' || s[1] == '\\' || s[1] == '/' then Some((s[1], s[2..]))
    else None
  }

  /** The rest of a string literal whose first characters are `text`. */
  function ParseChars(s: string, text: string): (r: Option<(string, string)>)
    ensures r.Some? ==> |r.value.1| < |s|
    decreases |s|
  {
    if s == "" then None
    else if s[0] == '\"' then Some((text, s[1..]))
    else match NextChar(s)
      case None => None
      case Some((c, rest)) =>
        if !PrintableChar(c) || |text| >= MAX_TEXT then None else ParseChars(rest, text + [c])
  }

  function ParseString(s: string): (r: Option<(string, string)>)
    ensures r.Some? ==> |r.value.1| < |s|
  {
    var t := SkipBlanks(s);
    if t == "" || t[0] != '\"' then None else ParseChars(t[1..], "")
  }

  // ------------------------------------------------------------------- values

  function ParseDigits(s: string, digits: string): (r: Option<(string, string)>)
    ensures r.Some? ==> |r.value.1| <= |s|
    decreases |s|
  {
    if s == "" || !Digit(s[0]) then Some((digits, s))
    else if |digits| >= MAX_DIGITS then None
    else ParseDigits(s[1..], digits + [s[0]])
  }

  /** A member's name and its colon; an element has none. */
  function ParseName(s: string, braces: bool): (r: Option<(string, string)>)
    ensures r.Some? ==> |r.value.1| <= |s|
  {
    if !braces then Some(("", s))
    else match ParseString(s)
      case None => None
      case Some((key, rest)) =>
        var t := SkipBlanks(rest);
        if t == "" || t[0] != ':' then None else Some((key, t[1..]))
  }

  predicate HasKey(v: Json, key: string) {
    v.Object? && exists f :: f in v.fields && f.key == key
  }

  function Extended(v: Json, key: string, child: Json): Json
    requires v.Object? || v.Array?
  {
    if v.Object? then Object(v.fields + [Field(key, child)]) else Array(v.items + [child])
  }

  function ParseValue(s: string, depth: nat): (r: Option<(Json, string)>)
    ensures r.Some? ==> |r.value.1| < |s|
    decreases |s|, 0
  {
    var t := SkipBlanks(s);
    if depth > MAX_DEPTH || t == "" then None
    else if t[0] == '\"' then
      match ParseString(t)
      case None => None
      case Some((text, rest)) => Some((Text(text), rest))
    else if Digit(t[0]) then
      if t[0] == '0' && |t| > 1 && Digit(t[1]) then None
      else match ParseDigits(t[1..], [t[0]])
        case None => None
        case Some((digits, rest)) => Some((Number(digits), rest))
    else if t[0] != '{' && t[0] != '[' then None
    else
      var braces := t[0] == '{';
      var u := SkipBlanks(t[1..]);
      var out := if braces then Object([]) else Array([]);
      if u != "" && u[0] == Closer(braces) then Some((out, u[1..]))
      else ParseItems(u, braces, 0, depth, out)
  }

  /** The members or elements left to read, `count` of them already in `out`. */
  function ParseItems(s: string, braces: bool, count: nat, depth: nat, out: Json): (r: Option<(Json, string)>)
    requires if braces then out.Object? else out.Array?
    ensures r.Some? ==> |r.value.1| < |s|
    decreases |s|, 1
  {
    if count >= MAX_MEMBERS then None
    else match ParseName(s, braces)
      case None => None
      case Some((key, afterName)) =>
        match ParseValue(afterName, depth + 1)
        case None => None
        case Some((child, afterChild)) =>
          var t := SkipBlanks(afterChild);
          if HasKey(out, key) || t == "" then None
          else if t[0] == Closer(braces) then Some((Extended(out, key, child), t[1..]))
          else if t[0] != ',' then None
          else ParseItems(t[1..], braces, count + 1, depth, Extended(out, key, child))
  }

  function Parse(s: string): Option<Json> {
    match ParseValue(s, 0)
    case None => None
    case Some((v, rest)) => if SkipBlanks(rest) == "" then Some(v) else None
  }

  // ------------------------------------------------------------------- blanks

  lemma {:induction false} BlanksBefore(s: string) returns (b: string)
    ensures Blanks(b) && s == b + SkipBlanks(s)
  {
    b := "";
    if s != "" && Blank(s[0]) {
      var c := BlanksBefore(s[1..]);
      b := [s[0]] + c;
    }
  }

  lemma {:induction false} SkipsBlanks(b: string, s: string)
    requires Blanks(b) && (s == "" || !Blank(s[0]))
    ensures SkipBlanks(b + s) == s
  {
    if b == "" {
      assert b + s == s;
    } else {
      assert (b + s)[0] == b[0] && (b + s)[1..] == b[1..] + s;
      SkipsBlanks(b[1..], s);
    }
  }

  // ------------------------------------------------------------------ strings

  lemma UnitRead(s: string) returns (u: Unit)
    requires s != "" && s[0] != '\"' && NextChar(s).Some? && PrintableChar(NextChar(s).value.0)
    ensures ValidUnit(u) && UnitChar(u) == NextChar(s).value.0
    ensures s == UnitText(u) + NextChar(s).value.1
  {
    if s[0] != '\\' {
      u := Plain(s[0]);
    } else if s[1] == 'u' {
      u := Coded(s[2..6]);
    } else {
      u := Escaped(s[1]);
    }
  }

  lemma UnitReads(u: Unit, rest: string)
    requires ValidUnit(u) && PrintableChar(UnitChar(u))
    ensures var s := UnitText(u) + rest;
      s != "" && s[0] != '\"' && NextChar(s) == Some((UnitChar(u), rest))
  {
    var s := UnitText(u) + rest;
    match u
    case Plain(c) => assert s[1..] == rest;
    case Escaped(e) => assert s[2..] == rest;
    case Coded(h) => assert s[2..6] == h && s[6..] == rest;
  }

  lemma {:induction false} CharsRead(s: string, text: string) returns (units: seq<Unit>)
    requires ParseChars(s, text).Some? && ShortText(text)
    ensures ValidUnits(units)
    ensures var (whole, rest) := ParseChars(s, text).value;
      whole == text + UnitsString(units) && ShortText(whole) && s == UnitsText(units) + ("\"" + rest)
    decreases |s|
  {
    if s[0] == '\"' {
      units := [];
      assert s == "\"" + s[1..];
    } else {
      var (c, rest) := NextChar(s).value;
      var u := UnitRead(s);
      assert ParseChars(s, text) == ParseChars(rest, text + [c]);
      assert ShortText(text + [c]);
      hide *;
      var more := CharsRead(rest, text + [c]);
      units := [u] + more;
      UnitsSplit(u, more);
      CharIn(text, c, UnitsString(more));
      Regroup(UnitText(u), UnitsText(more), "\"" + ParseChars(s, text).value.1);
    }
  }

  lemma Regroup(a: string, b: string, c: string)
    ensures a + (b + c) == (a + b) + c
  {
  }

  lemma UnitsSplit(u: Unit, more: seq<Unit>)
    requires ValidUnit(u) && ValidUnits(more)
    ensures ValidUnits([u] + more)
    ensures UnitsText([u] + more) == UnitText(u) + UnitsText(more)
    ensures UnitsString([u] + more) == [UnitChar(u)] + UnitsString(more)
  {
    assert ([u] + more)[1..] == more;
  }

  lemma {:induction false} CharsReads(units: seq<Unit>, rest: string, text: string)
    requires ValidUnits(units) && ShortText(text + UnitsString(units))
    ensures ParseChars(UnitsText(units) + ("\"" + rest), text) == Some((text + UnitsString(units), rest))
    decreases |units|
  {
    var end := "\"" + rest;
    var s := UnitsText(units) + end;
    if units == [] {
      assert s == end && s[1..] == rest;
      assert text + UnitsString(units) == text;
    } else {
      var u, more := units[0], units[1..];
      var c := UnitChar(u);
      assert units == [u] + more;
      UnitsSplit(u, more);
      CharIn(text, c, UnitsString(more));
      hide UnitText, UnitsText, UnitsString, NextChar, UnitChar, ValidUnit;
      assert s == UnitText(u) + (UnitsText(more) + end);
      UnitReads(u, UnitsText(more) + end);
      CharsReads(more, rest, text + [c]);
    }
  }

  lemma CharIn(text: string, c: char, more: string)
    ensures text + ([c] + more) == (text + [c]) + more
    ensures c in text + ([c] + more) && |text| < |text + ([c] + more)|
  {
    assert (text + ([c] + more))[|text|] == c;
  }

  lemma LiteralWritten(before: string, units: seq<Unit>, t: string, rest: string)
    requires t != "" && t[0] == '\"' && t[1..] == UnitsText(units) + ("\"" + rest)
    ensures before + t == LiteralText(Literal(before, units)) + rest
  {
    hide UnitsText;
    assert t == "\"" + t[1..];
    var text := UnitsText(units);
    assert before + ("\"" + (text + ("\"" + rest))) == (before + "\"" + text + "\"") + rest;
  }

  lemma StringRead(s: string) returns (l: Literal)
    requires ParseString(s).Some?
    ensures ValidLiteral(l)
    ensures var (text, rest) := ParseString(s).value;
      text == UnitsString(l.units) && ShortText(text) && s == LiteralText(l) + rest
  {
    hide ParseChars, UnitsText, UnitsString, LiteralText, ValidUnits, SkipBlanks;
    var b := BlanksBefore(s);
    var t := SkipBlanks(s);
    var units := CharsRead(t[1..], "");
    l := Literal(b, units);
    assert "" + UnitsString(units) == UnitsString(units);
    LiteralWritten(b, units, t, ParseString(s).value.1);
  }

  lemma StringReads(l: Literal, rest: string)
    requires ValidLiteral(l) && ShortText(UnitsString(l.units))
    ensures ParseString(LiteralText(l) + rest) == Some((UnitsString(l.units), rest))
  {
    var body := UnitsText(l.units) + ("\"" + rest);
    assert LiteralText(l) + rest == l.before + ("\"" + body);
    SkipsBlanks(l.before, "\"" + body);
    assert ("\"" + body)[1..] == body;
    assert "" + UnitsString(l.units) == UnitsString(l.units);
    CharsReads(l.units, rest, "");
  }

  // ------------------------------------------------------------------ numbers

  predicate AllDigits(s: string) { forall c :: c in s ==> Digit(c) }

  lemma {:induction false} DigitsRead(s: string, digits: string) returns (more: string)
    requires ParseDigits(s, digits).Some? && |digits| <= MAX_DIGITS
    ensures AllDigits(more)
    ensures var (whole, rest) := ParseDigits(s, digits).value;
      whole == digits + more && |whole| <= MAX_DIGITS && s == more + rest
    decreases |s|
  {
    more := "";
    if s != "" && Digit(s[0]) {
      var tail := DigitsRead(s[1..], digits + [s[0]]);
      more := [s[0]] + tail;
    }
  }

  lemma {:induction false} DigitsReads(more: string, rest: string, digits: string)
    requires AllDigits(more) && |digits + more| <= MAX_DIGITS && (rest == "" || !Digit(rest[0]))
    ensures ParseDigits(more + rest, digits) == Some((digits + more, rest))
    decreases |more|
  {
    if more == "" {
      assert more + rest == rest && digits + more == digits;
    } else {
      assert (more + rest)[1..] == more[1..] + rest;
      assert digits + more == (digits + [more[0]]) + more[1..];
      DigitsReads(more[1..], rest, digits + [more[0]]);
    }
  }

  // -------------------------------------------------------------------- names

  lemma NameRead(s: string, braces: bool) returns (name: Name)
    requires ParseName(s, braces).Some?
    ensures ValidLiteral(name.literal) && Blanks(name.after)
    ensures var (key, rest) := ParseName(s, braces).value;
      s == NameText(braces, name) + rest &&
      (braces ==> key == UnitsString(name.literal.units) && ShortText(key))
  {
    hide ParseString, SkipBlanks, LiteralText, UnitsString, ShortText;
    if braces {
      var l := StringRead(s);
      var rest := ParseString(s).value.1;
      var b := BlanksBefore(rest);
      var t := SkipBlanks(rest);
      name := Name(l, b);
      assert t == ":" + t[1..];
      assert LiteralText(l) + (b + (":" + t[1..])) == NameText(braces, name) + t[1..];
    } else {
      name := Name(Literal("", []), "");
      assert s == "" + s;
    }
  }

  lemma NameReads(braces: bool, name: Name, rest: string)
    requires ValidLiteral(name.literal) && Blanks(name.after)
    requires braces ==> ShortText(UnitsString(name.literal.units))
    ensures ParseName(NameText(braces, name) + rest, braces)
         == Some((if braces then UnitsString(name.literal.units) else "", rest))
  {
    if braces {
      var after := name.after + (":" + rest);
      assert NameText(braces, name) + rest == LiteralText(name.literal) + after;
      StringReads(name.literal, after);
      SkipsBlanks(name.after, ":" + rest);
      assert (":" + rest)[1..] == rest;
    } else {
      assert NameText(braces, name) + rest == rest;
    }
  }

  // ------------------------------------------------------------------ members

  ghost predicate GoodSoFar(out: Json, braces: bool, count: nat, depth: nat) {
    && InSchema(out, depth)
    && (if braces then out.Object? && |out.fields| == count else out.Array? && |out.items| == count)
  }

  function Joined(out: Json, items: Items): Json
    requires out.Object? || out.Array?
    requires ValidItems(items)
  {
    if out.Object? then Object(out.fields + Fields(items)) else Array(out.items + Elements(items))
  }

  lemma ExtendedIsGood(out: Json, braces: bool, count: nat, depth: nat, key: string, child: Json)
    requires GoodSoFar(out, braces, count, depth) && count < MAX_MEMBERS
    requires InSchema(child, depth + 1) && (braces ==> ShortText(key)) && !HasKey(out, key)
    ensures GoodSoFar(Extended(out, key, child), braces, count + 1, depth)
  {
  }

  lemma JoinedOnce(out: Json, name: Name, value: Tree, after: string, rest: Items)
    requires out.Object? || out.Array?
    requires ValidItems(Item(name, value, after, rest))
    ensures Joined(out, Item(name, value, after, rest))
         == Joined(Extended(out, UnitsString(name.literal.units), Meaning(value)), rest)
  {
    var items := Item(name, value, after, rest);
    if out.Object? {
      var f := [Field(UnitsString(name.literal.units), Meaning(value))];
      assert out.fields + (f + Fields(rest)) == (out.fields + f) + Fields(rest);
    } else {
      assert out.items + ([Meaning(value)] + Elements(rest)) == (out.items + [Meaning(value)]) + Elements(rest);
    }
  }

  lemma JoinedNone(out: Json)
    requires out.Object? || out.Array?
    ensures Joined(out, End) == out
  {
  }

  lemma ItemWritten(braces: bool, name: Name, value: Tree, after: string, rest: Items, tail: string, follow: string)
    requires follow == (if rest.End? then [Closer(braces)] else [','] + WrittenItems(braces, rest)) + tail
    ensures WrittenItems(braces, Item(name, value, after, rest)) + tail
         == NameText(braces, name) + (Written(value) + (after + follow))
  {
    var last := if rest.End? then [Closer(braces)] else [','] + WrittenItems(braces, rest);
    assert WrittenItems(braces, Item(name, value, after, rest))
        == NameText(braces, name) + (Written(value) + (after + last));
    hide *;
    Regroup(after, last, tail);
    Regroup(Written(value), after + last, tail);
    Regroup(NameText(braces, name), Written(value) + (after + last), tail);
  }

  // ------------------------------------------------- what was read was written

  lemma ItemsStep(s: string, braces: bool, count: nat, depth: nat, out: Json)
    returns (key: string, afterName: string, child: Json, afterChild: string, t: string)
    requires if braces then out.Object? else out.Array?
    requires ParseItems(s, braces, count, depth, out).Some?
    ensures count < MAX_MEMBERS && !HasKey(out, key)
    ensures ParseName(s, braces) == Some((key, afterName))
    ensures ParseValue(afterName, depth + 1) == Some((child, afterChild))
    ensures t == SkipBlanks(afterChild) && t != "" && |t| < |afterName| <= |s|
    ensures ParseItems(s, braces, count, depth, out) ==
      if t[0] == Closer(braces) then Some((Extended(out, key, child), t[1..]))
      else ParseItems(t[1..], braces, count + 1, depth, Extended(out, key, child))
    ensures t[0] == Closer(braces) || t[0] == ','
  {
    var n := ParseName(s, braces).value;
    key, afterName := n.0, n.1;
    var c := ParseValue(afterName, depth + 1).value;
    child, afterChild := c.0, c.1;
    t := SkipBlanks(afterChild);
  }

  /** Leading blanks change nothing. */
  lemma ValueAfterBlanks(s: string, depth: nat)
    ensures ParseValue(s, depth) == ParseValue(SkipBlanks(s), depth)
  {
  }

  lemma TextRead(b: string, u: string, depth: nat) returns (t: Tree)
    requires Blanks(b) && u != "" && u[0] == '\"' && ParseValue(u, depth).Some?
    ensures ValidTree(t)
    ensures var (v, rest) := ParseValue(u, depth).value;
      Meaning(t) == v && InSchema(v, depth) && b + u == Written(t) + rest
  {
    var rest := ParseValue(u, depth).value.1;
    assert SkipBlanks(u) == u;
    hide ParseString, UnitsString, UnitsText, ValidUnits, ShortText, SkipBlanks;
    var l := StringRead(u);
    t := TextTree(Literal(b + l.before, l.units));
    assert b + (LiteralText(l) + rest) == Written(t) + rest;
  }

  lemma NumberRead(b: string, u: string, depth: nat) returns (t: Tree)
    requires Blanks(b) && u != "" && Digit(u[0]) && ParseValue(u, depth).Some?
    ensures ValidTree(t)
    ensures var (v, rest) := ParseValue(u, depth).value;
      Meaning(t) == v && InSchema(v, depth) && b + u == Written(t) + rest
  {
    var rest := ParseValue(u, depth).value.1;
    assert SkipBlanks(u) == u;
    assert ParseDigits(u[1..], [u[0]]).Some?;
    assert ParseValue(u, depth).value.0 == Number(ParseDigits(u[1..], [u[0]]).value.0);
    assert u[0] == '0' && |u| > 1 ==> !Digit(u[1]);
    hide ParseDigits, SkipBlanks, ParseValue;
    var more := DigitsRead(u[1..], [u[0]]);
    t := NumberTree(b, [u[0]] + more);
    NumberWritten(b, u, more, rest);
  }

  lemma NumberWritten(b: string, u: string, more: string, rest: string)
    requires u != "" && Digit(u[0]) && AllDigits(more) && u[1..] == more + rest
    requires u[0] == '0' && |u| > 1 ==> !Digit(u[1])
    ensures b + u == (b + ([u[0]] + more)) + rest
    ensures ValidNumber([u[0]] + more)
  {
    assert u == [u[0]] + (more + rest);
    assert |more| > 0 ==> u[1] == more[0];
  }

  lemma {:induction false} ValueRead(s: string, depth: nat) returns (t: Tree)
    requires ParseValue(s, depth).Some?
    ensures ValidTree(t)
    ensures var (v, rest) := ParseValue(s, depth).value;
      Meaning(t) == v && InSchema(v, depth) && s == Written(t) + rest
    decreases |s|, 1
  {
    ValueAfterBlanks(s, depth);
    var b := BlanksBefore(s);
    var u := SkipBlanks(s);
    assert u != "" && (u[0] == '\"' || Digit(u[0]) || u[0] == '{' || u[0] == '[');
    hide *;
    if u[0] == '\"' {
      t := TextRead(b, u, depth);
    } else if Digit(u[0]) {
      t := NumberRead(b, u, depth);
    } else {
      t := ContainerRead(b, u, depth);
    }
  }

  lemma {:induction false} ContainerRead(b: string, u: string, depth: nat) returns (t: Tree)
    requires Blanks(b) && u != "" && (u[0] == '{' || u[0] == '[')
    requires ParseValue(u, depth).Some?
    ensures ValidTree(t)
    ensures var (v, rest) := ParseValue(u, depth).value;
      Meaning(t) == v && InSchema(v, depth) && b + u == Written(t) + rest
    decreases |u|, 0
  {
    var braces := u[0] == '{';
    var inside := BlanksBefore(u[1..]);
    var w := SkipBlanks(u[1..]);
    var out := if braces then Object([]) else Array([]);
    assert depth <= MAX_DEPTH && SkipBlanks(u) == u;
    assert ParseValue(u, depth) ==
      if w != "" && w[0] == Closer(braces) then Some((out, w[1..])) else ParseItems(w, braces, 0, depth, out);
    EmptyIsGood(braces, depth);
    hide ParseValue, ParseItems, InSchema, SkipBlanks, Written, WrittenItems, Joined, Meaning;
    var items := End;
    if w == "" || w[0] != Closer(braces) {
      items := ItemsRead(w, braces, 0, depth, out);
    }
    t := Container(b, braces, items, inside);
    JoinedEmpty(t);
    ContainerWritten(b, braces, items, inside, u, w, ParseValue(u, depth).value.1);
  }

  lemma WrittenContainer(b: string, braces: bool, items: Items, inside: string, body: string)
    requires body == if items.End? then [Closer(braces)] else WrittenItems(braces, items)
    ensures Written(Container(b, braces, items, inside)) == b + ([Opener(braces)] + (inside + body))
  {
  }

  lemma FirstAndRest(s: string)
    requires s != ""
    ensures s == [s[0]] + s[1..]
  {
  }

  lemma ContainerWritten(b: string, braces: bool, items: Items, inside: string, u: string, w: string, rest: string)
    requires u != "" && u[0] == Opener(braces) && u[1..] == inside + w
    requires w == (if items.End? then [Closer(braces)] else WrittenItems(braces, items)) + rest
    ensures b + u == Written(Container(b, braces, items, inside)) + rest
  {
    var body := if items.End? then [Closer(braces)] else WrittenItems(braces, items);
    var first := [Opener(braces)];
    WrittenContainer(b, braces, items, inside, body);
    FirstAndRest(u);
    hide *;
    Regroup(inside, body, rest);
    Regroup(first, inside + body, rest);
    Regroup(b, first + (inside + body), rest);
  }

  lemma {:induction false} ItemsRead(s: string, braces: bool, count: nat, depth: nat, out: Json) returns (items: Items)
    requires GoodSoFar(out, braces, count, depth)
    requires ParseItems(s, braces, count, depth, out).Some?
    ensures items.Item? && ValidItems(items)
    ensures var (v, rest) := ParseItems(s, braces, count, depth, out).value;
      v == Joined(out, items) && InSchema(v, depth) && s == WrittenItems(braces, items) + rest
    decreases |s|, 2
  {
    hide ParseItems, ParseValue, ParseName, InSchema, WrittenItems, Written, NameText, SkipBlanks, Blanks, ValidLiteral,
      ValidTree, Joined, Meaning, HasKey, ShortText, UnitsString;
    var tail := ParseItems(s, braces, count, depth, out).value.1;
    var key, afterName, child, afterChild, t := ItemsStep(s, braces, count, depth, out);
    var name := NameRead(s, braces);
    var value := ValueRead(afterName, depth + 1);
    var after := BlanksBefore(afterChild);
    ExtendedIsGood(out, braces, count, depth, key, child);
    var rest := End;
    if t[0] != Closer(braces) {
      rest := ItemsRead(t[1..], braces, count + 1, depth, Extended(out, key, child));
      assert t == [','] + t[1..];
    } else {
      assert t == [Closer(braces)] + t[1..];
      JoinedNone(Extended(out, key, child));
    }
    items := Item(name, value, after, rest);
    ItemWritten(braces, name, value, after, rest, tail, t);
    JoinedOnce(out, name, value, after, rest);
  }

  // ------------------------------------------------- what was written is read

  predicate NoDigitFirst(s: string) { s == "" || !Digit(s[0]) }

  lemma BlanksAreNoDigits(b: string, s: string)
    requires Blanks(b) && NoDigitFirst(s)
    ensures NoDigitFirst(b + s)
  {
    assert b != "" ==> (b + s)[0] == b[0] && b[0] in b;
    assert b == "" ==> b + s == s;
  }

  lemma TextReads(literal: Literal, depth: nat, rest: string)
    requires ValidLiteral(literal) && InSchema(Text(UnitsString(literal.units)), depth)
    ensures ParseValue(LiteralText(literal) + rest, depth) == Some((Text(UnitsString(literal.units)), rest))
  {
    var bare := Literal("", literal.units);
    var s := LiteralText(literal) + rest;
    var u := LiteralText(bare) + rest;
    assert s == literal.before + u && u[0] == '\"';
    SkipsBlanks(literal.before, u);
    StringReads(bare, rest);
  }

  lemma NumberReads(before: string, digits: string, depth: nat, rest: string)
    requires Blanks(before) && InSchema(Number(digits), depth) && NoDigitFirst(rest)
    ensures ParseValue((before + digits) + rest, depth) == Some((Number(digits), rest))
  {
    var u := digits + rest;
    assert (before + digits) + rest == before + u;
    assert u[0] == digits[0] && digits[0] in digits;
    SkipsBlanks(before, u);
    assert digits == [digits[0]] + digits[1..];
    assert u[1..] == digits[1..] + rest;
    DigitsReads(digits[1..], rest, [digits[0]]);
    assert |digits| == 1 && |u| > 1 ==> u[1] == rest[0];
  }

  lemma {:induction false} SkipsPrefix(b: string, s: string)
    requires Blanks(b)
    ensures SkipBlanks(b + s) == SkipBlanks(s)
  {
    if b == "" {
      assert b + s == s;
    } else {
      assert (b + s)[0] == b[0] && (b + s)[1..] == b[1..] + s;
      SkipsPrefix(b[1..], s);
    }
  }

  lemma LiteralStarts(l: Literal, tail: string)
    requires ValidLiteral(l)
    ensures var u := SkipBlanks(LiteralText(l) + tail); u != "" && u[0] == '\"'
  {
    var u := "\"" + (UnitsText(l.units) + ("\"" + tail));
    assert LiteralText(l) + tail == l.before + u;
    SkipsBlanks(l.before, u);
  }

  /** A value never starts with a closing bracket. */
  lemma ValueStarts(t: Tree, tail: string)
    requires ValidTree(t)
    ensures var u := SkipBlanks(Written(t) + tail); u != "" && u[0] != '}' && u[0] != ']'
  {
    match t
    case TextTree(literal) => LiteralStarts(literal, tail);
    case NumberTree(before, digits) =>
      assert digits[0] in digits;
      StartsAfter(before, digits, tail);
    case Container(before, braces, items, inside) =>
      StartsAfter(before, [Opener(braces)] + (inside + (if items.End? then [Closer(braces)] else WrittenItems(braces, items))), tail);
  }

  lemma StartsAfter(before: string, body: string, tail: string)
    requires Blanks(before) && body != "" && !Blank(body[0])
    ensures SkipBlanks((before + body) + tail) == body + tail && (body + tail)[0] == body[0]
  {
    assert (before + body) + tail == before + (body + tail);
    SkipsBlanks(before, body + tail);
  }

  lemma ItemsStart(braces: bool, items: Items, rest: string)
    requires items.Item? && ValidItems(items)
    ensures var u := SkipBlanks(WrittenItems(braces, items) + rest); u != "" && u[0] != Closer(braces)
  {
    hide SkipBlanks, Written, LiteralText, ValidLiteral, ValidTree;
    var follow := (if items.rest.End? then [Closer(braces)] else [','] + WrittenItems(braces, items.rest)) + rest;
    ItemWritten(braces, items.name, items.value, items.after, items.rest, rest, follow);
    var tail := items.after + follow;
    var X := WrittenItems(braces, items) + rest;
    if braces {
      var more := (items.name.after + ":") + (Written(items.value) + tail);
      assert X == LiteralText(items.name.literal) + more;
      LiteralStarts(items.name.literal, more);
    } else {
      assert X == Written(items.value) + tail;
      ValueStarts(items.value, tail);
    }
  }

  lemma ItemsAfterBlanks(s: string, braces: bool, count: nat, depth: nat, out: Json)
    requires if braces then out.Object? else out.Array?
    ensures ParseItems(s, braces, count, depth, out) == ParseItems(SkipBlanks(s), braces, count, depth, out)
  {
    if braces {
      assert ParseString(s) == ParseString(SkipBlanks(s));
    } else {
      ValueAfterBlanks(s, depth + 1);
    }
  }

  lemma ItemsUnfold(s: string, braces: bool, count: nat, depth: nat, out: Json,
                    key: string, afterName: string, child: Json, afterChild: string, t: string)
    requires if braces then out.Object? else out.Array?
    requires count < MAX_MEMBERS && !HasKey(out, key)
    requires ParseName(s, braces) == Some((key, afterName))
    requires ParseValue(afterName, depth + 1) == Some((child, afterChild))
    requires t == SkipBlanks(afterChild) && t != "" && (t[0] == Closer(braces) || t[0] == ',')
    ensures ParseItems(s, braces, count, depth, out) ==
      if t[0] == Closer(braces) then Some((Extended(out, key, child), t[1..]))
      else ParseItems(t[1..], braces, count + 1, depth, Extended(out, key, child))
  {
  }

  /** What the schema says of the whole says as much of its next member. */
  lemma NextInSchema(out: Json, braces: bool, count: nat, depth: nat, items: Items)
    requires GoodSoFar(out, braces, count, depth) && items.Item? && ValidItems(items)
    requires InSchema(Joined(out, items), depth)
    ensures count < MAX_MEMBERS && InSchema(Meaning(items.value), depth + 1)
    ensures var key := UnitsString(items.name.literal.units);
      braces ==> ShortText(key) && !HasKey(out, key)
  {
    if braces {
      var all := out.fields + Fields(items);
      var f := Field(UnitsString(items.name.literal.units), Meaning(items.value));
      assert all[count] == f && f in all;
      assert forall i :: 0 <= i < count ==> all[i] == out.fields[i];
    } else {
      var all := out.items + Elements(items);
      assert all[count] == Meaning(items.value) && all[count] in all;
    }
  }

  lemma {:induction false} ItemsReads(braces: bool, items: Items, rest: string, count: nat, depth: nat, out: Json)
    requires items.Item? && ValidItems(items)
    requires GoodSoFar(out, braces, count, depth) && InSchema(Joined(out, items), depth)
    ensures ParseItems(WrittenItems(braces, items) + rest, braces, count, depth, out) == Some((Joined(out, items), rest))
    decreases items, 0
  {
    hide ParseItems, ParseValue, ParseName, InSchema, WrittenItems, Written, NameText, SkipBlanks,
      ValidTree, Joined, Meaning, ShortText, UnitsString;
    var Item(name, value, after, more) := items;
    var key := if braces then UnitsString(name.literal.units) else "";
    var child := Meaning(value);
    var follow := (if more.End? then [Closer(braces)] else [','] + WrittenItems(braces, more)) + rest;
    var s := WrittenItems(braces, items) + rest;
    NextInSchema(out, braces, count, depth, items);
    ItemWritten(braces, name, value, after, more, rest, follow);
    NameReads(braces, name, Written(value) + (after + follow));
    BlanksAreNoDigits(after, follow);
    ValueReads(value, depth + 1, after + follow);
    SkipsBlanks(after, follow);
    ItemsUnfold(s, braces, count, depth, out, key, Written(value) + (after + follow), child, after + follow, follow);
    ExtendedIsGood(out, braces, count, depth, key, child);
    JoinedOnce(out, name, value, after, more);
    if more.End? {
      JoinedNone(Extended(out, key, child));
      assert follow[1..] == rest;
    } else {
      assert follow[1..] == WrittenItems(braces, more) + rest;
      ItemsReads(braces, more, rest, count + 1, depth, Extended(out, key, child));
    }
  }

  lemma ContainerUnfold(before: string, braces: bool, depth: nat, inner: string, u: string)
    requires Blanks(before) && depth <= MAX_DEPTH && u == SkipBlanks(inner)
    ensures ParseValue(before + ([Opener(braces)] + inner), depth) ==
      var out := if braces then Object([]) else Array([]);
      if u != "" && u[0] == Closer(braces) then Some((out, u[1..])) else ParseItems(u, braces, 0, depth, out)
  {
    var t := [Opener(braces)] + inner;
    SkipsBlanks(before, t);
    assert t[1..] == inner;
  }

  lemma {:induction false} ContainerReads(before: string, braces: bool, items: Items, inside: string, depth: nat, rest: string)
    requires ValidTree(Container(before, braces, items, inside))
    requires InSchema(Meaning(Container(before, braces, items, inside)), depth)
    ensures ParseValue(Written(Container(before, braces, items, inside)) + rest, depth)
         == Some((Meaning(Container(before, braces, items, inside)), rest))
    decreases items, 1
  {
    var t := Container(before, braces, items, inside);
    var out := if braces then Object([]) else Array([]);
    var body := (if items.End? then [Closer(braces)] else WrittenItems(braces, items)) + rest;
    assert Written(t) + rest == before + ([Opener(braces)] + (inside + body));
    SkipsPrefix(inside, body);
    ContainerUnfold(before, braces, depth, inside + body, SkipBlanks(body));
    EmptyIsGood(braces, depth);
    JoinedEmpty(t);
    hide InSchema, ParseValue, ParseItems, Written, WrittenItems, Joined, Meaning;
    if items.End? {
      assert body[1..] == rest;
    } else {
      ItemsStart(braces, items, rest);
      ItemsAfterBlanks(body, braces, 0, depth, out);
      ItemsReads(braces, items, rest, 0, depth, out);
    }
  }

  lemma JoinedEmpty(t: Tree)
    requires t.Container? && ValidTree(t)
    ensures Joined(if t.braces then Object([]) else Array([]), t.items) == Meaning(t)
  {
    assert [] + Fields(t.items) == Fields(t.items);
    assert [] + Elements(t.items) == Elements(t.items);
  }

  lemma EmptyIsGood(braces: bool, depth: nat)
    requires depth <= MAX_DEPTH
    ensures GoodSoFar(if braces then Object([]) else Array([]), braces, 0, depth)
  {
  }

  lemma {:induction false} ValueReads(t: Tree, depth: nat, rest: string)
    requires ValidTree(t) && InSchema(Meaning(t), depth) && NoDigitFirst(rest)
    ensures ParseValue(Written(t) + rest, depth) == Some((Meaning(t), rest))
    decreases t
  {
    match t
    case TextTree(literal) => TextReads(literal, depth, rest);
    case NumberTree(before, digits) => NumberReads(before, digits, depth, rest);
    case Container(before, braces, items, inside) => ContainerReads(before, braces, items, inside, depth, rest);
  }

  /** The parser accepts exactly the JSON texts of the schema's values, and returns the value. */
  lemma ParsesExactly(s: string, v: Json)
    ensures Parse(s) == Some(v) <==> JsonText(s, v) && InSchema(v, 0)
  {
    hide ParseValue, Written, Meaning, InSchema, ValidTree;
    if Parse(s) == Some(v) {
      var rest := ParseValue(s, 0).value.1;
      var t := ValueRead(s, 0);
      var tail := BlanksBefore(rest);
      assert rest == tail;
    }
    if JsonText(s, v) && InSchema(v, 0) {
      var t: Tree, tail: string :| ValidTree(t) && Blanks(tail) && Meaning(t) == v && s == Written(t) + tail;
      assert tail + "" == tail;
      BlanksAreNoDigits(tail, "");
      ValueReads(t, 0, tail);
      SkipsBlanks(tail, "");
    }
  }
}
