/** The parser as it runs: a cursor over the input, moved by every method. */
module Parsers {

  import opened ChallengeJson
  import opened Parsing
  import opened Wrappers

  /** A method read what the function reads of the same text, and left the cursor after it. */
  predicate Read<T(==)>(expected: Option<(T, string)>, got: Option<T>, rest: string) {
    match expected
    case None => got == None
    case Some((value, after)) => got == Some(value) && rest == after
  }

  class Parser {
    const input: string
    var pos: nat

    ghost predicate Valid()
      reads this
    {
      pos <= |input|
    }

    ghost function Left(): string
      reads this
      requires Valid()
    {
      input[pos..]
    }

    constructor (text: string)
      ensures input == text && pos == 0 && Valid()
    {
      input, pos := text, 0;
    }

    method Space()
      requires Valid()
      modifies this
      ensures Valid() && pos >= old(pos) && Left() == SkipBlanks(old(Left()))
    {
      while pos < |input| && Blank(input[pos])
        invariant old(pos) <= pos <= |input|
        invariant SkipBlanks(Left()) == SkipBlanks(old(Left()))
      {
        assert Left()[1..] == input[pos + 1..];
        pos := pos + 1;
      }
    }

    /** The four digits of a coded character. */
    method Code() returns (r: Option<nat>)
      requires Valid() && |input| - pos >= 4
      modifies this
      ensures Valid() && pos >= old(pos)
      ensures var h := old(input[pos..pos + 4]);
        if HexString(h) then r == Some(HexValue(h)) && pos == old(pos) + 4 else r == None
    {
      ghost var start := pos;
      var value := 0;
      for i := 0 to 4
        invariant pos == start + i
        invariant HexString(input[start..pos]) && value == HexValue(input[start..pos])
      {
        var digit := HexDigit(input[pos]);
        if digit.None? {
          assert input[start..start + 4][i] == input[pos];
          return None;
        }
        assert input[start..pos + 1] == input[start..pos] + [input[pos]];
        value := value * 16 + digit.value;
        pos := pos + 1;
      }
      return Some(value);
    }

    /** One character of a string literal, its escapes undone. */
    method Next() returns (r: Option<char>)
      requires Valid() && pos < |input|
      modifies this
      ensures Valid() && pos > old(pos)
      ensures Read(NextChar(old(Left())), r, Left())
    {
      ghost var s := Left();
      var c := input[pos];
      pos := pos + 1;
      if c != '\\' {
        return Some(c);
      }
      if pos >= |input| {
        return None;
      }
      c := input[pos];
      pos := pos + 1;
      if c == 'u' {
        if |input| - pos < 4 {
          return None;
        }
        assert s[2..6] == input[pos..pos + 4];
        var value := Code();
        if value.None? || value.value < 0x20 || value.value > 0x7e {
          return None;
        }
        return Some(value.value as char);
      }
      if c != '\"' && c != '\\' && c != '/' {
        return None;
      }
      return Some(c);
    }

    method String() returns (r: Option<string>)
      requires Valid()
      modifies this
      ensures Valid() && pos >= old(pos) && (r.Some? ==> pos > old(pos))
      ensures Read(ParseString(old(Left())), r, Left())
    {
      hide NextChar, SkipBlanks;
      Space();
      if pos >= |input| || input[pos] != '\"' {
        return None;
      }
      assert Left()[1..] == input[pos + 1..];
      pos := pos + 1;
      var out := "";
      ghost var whole := ParseString(old(Left()));
      while pos < |input|
        invariant old(pos) < pos <= |input|
        invariant whole == ParseChars(Left(), out)
        decreases |input| - pos
      {
        assert Left() != "" && Left()[0] == input[pos] && Left()[1..] == input[pos + 1..];
        if input[pos] == '\"' {
          pos := pos + 1;
          return Some(out);
        }
        var c := Next();
        if c.None? || !PrintableChar(c.value) || |out| >= MAX_TEXT {
          return None;
        }
        out := out + [c.value];
      }
      return None;
    }

    method Digits() returns (r: Option<string>)
      requires Valid() && pos < |input| && Digit(input[pos])
      modifies this
      ensures Valid() && pos > old(pos)
      ensures Read(ParseDigits(old(Left())[1..], [old(input[pos])]), r, Left())
    {
      var out := "";
      ghost var whole := ParseDigits(Left()[1..], [input[pos]]);
      assert "" + [input[pos]] == [input[pos]];
      assert whole == ParseDigits(Left(), "");
      while pos < |input| && Digit(input[pos])
        invariant old(pos) <= pos <= |input| && (pos == old(pos) ==> out == "")
        invariant whole == ParseDigits(Left(), out)
      {
        assert Left()[1..] == input[pos + 1..];
        if |out| >= MAX_DIGITS {
          return None;
        }
        out := out + [input[pos]];
        pos := pos + 1;
      }
      return Some(out);
    }

    /** The name and colon before a member. */
    method Name(braces: bool) returns (r: Option<string>)
      requires Valid()
      modifies this
      ensures Valid() && pos >= old(pos)
      ensures Read(ParseName(old(Left()), braces), r, Left())
    {
      hide ParseString, SkipBlanks;
      if !braces {
        return Some("");
      }
      r := String();
      if r.None? {
        return None;
      }
      Space();
      if pos >= |input| || input[pos] != ':' {
        return None;
      }
      assert Left()[1..] == input[pos + 1..];
      pos := pos + 1;
    }

    method Value(depth: nat) returns (r: Option<Json>)
      requires Valid()
      modifies this
      ensures Valid() && pos >= old(pos) && (r.Some? ==> pos > old(pos))
      ensures Read(ParseValue(old(Left()), depth), r, Left())
      decreases |input| - pos, 0
    {
      if depth > MAX_DEPTH {
        return None;
      }
      Space();
      if pos >= |input| {
        return None;
      }
      ghost var t := Left();
      var first := input[pos];
      assert t[0] == first && t[1..] == input[pos + 1..];
      if first == '\"' {
        var text := String();
        if text.None? {
          return None;
        }
        return Some(Text(text.value));
      }
      if Digit(first) {
        if first == '0' && pos + 1 < |input| && Digit(input[pos + 1]) {
          return None;
        }
        var digits := Digits();
        if digits.None? {
          return None;
        }
        return Some(Number(digits.value));
      }
      if first != '{' && first != '[' {
        return None;
      }
      pos := pos + 1;
      Space();
      var out := if first == '{' then Object([]) else Array([]);
      if pos < |input| && input[pos] == Closer(first == '{') {
        assert Left()[1..] == input[pos + 1..];
        pos := pos + 1;
        return Some(out);
      }
      r := Members(first == '{', depth, out);
    }

    /** The loop over the members of an object or the elements of an array. */
    method Members(braces: bool, depth: nat, empty: Json) returns (r: Option<Json>)
      requires Valid() && empty == if braces then Object([]) else Array([])
      modifies this
      ensures Valid() && pos >= old(pos)
      ensures Read(ParseItems(old(Left()), braces, 0, depth, empty), r, Left())
      decreases |input| - pos, 1
    {
      hide ParseValue, ParseName, SkipBlanks;
      var out := empty;
      ghost var whole := ParseItems(Left(), braces, 0, depth, empty);
      var count := 0;
      while count < MAX_MEMBERS
        invariant Valid() && pos >= old(pos)
        invariant if braces then out.Object? else out.Array?
        invariant whole == ParseItems(Left(), braces, count, depth, out)
        invariant count > 0 ==> pos > old(pos)
      {
        var key := Name(braces);
        if key.None? {
          return None;
        }
        var child := Value(depth + 1);
        if child.None? || HasKey(out, key.value) {
          return None;
        }
        out := Extended(out, key.value, child.value);
        Space();
        if pos >= |input| {
          return None;
        }
        var delimiter := input[pos];
        assert Left()[0] == delimiter && Left()[1..] == input[pos + 1..];
        pos := pos + 1;
        if delimiter == Closer(braces) {
          return Some(out);
        }
        if delimiter != ',' {
          return None;
        }
        count := count + 1;
      }
      return None;
    }

    /** The whole input: accepted exactly when it is a JSON text of a value in the schema. */
    method Run() returns (r: Option<Json>)
      requires pos == 0
      modifies this
      ensures r == Parse(input)
      ensures forall v :: r == Some(v) <==> JsonText(input, v) && InSchema(v, 0)
    {
      hide ParseValue, InSchema, JsonText;
      assert Left() == input;
      r := Value(0);
      if r.Some? {
        Space();
        if pos < |input| {
          r := None;
        }
      }
      forall v
        ensures r == Some(v) <==> JsonText(input, v) && InSchema(v, 0)
      {
        ParsesExactly(input, v);
      }
    }
  }
}
