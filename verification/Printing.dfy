/** A printer for the schema's values, and the round trip through the parser. */
module Printing {

  import opened ChallengeJson
  import opened Parsing
  import opened Wrappers

  function UnitFor(c: char): Unit {
    if c == '\"' || c == '\\' then Escaped(c) else Plain(c)
  }

  function UnitsFor(s: string): seq<Unit> {
    if s == "" then [] else [UnitFor(s[0])] + UnitsFor(s[1..])
  }

  function LiteralFor(s: string): Literal { Literal("", UnitsFor(s)) }

  /** The value written without blanks, escaping only what must be. */
  function TreeFor(v: Json): Tree
    decreases v
  {
    match v
    case Text(text) => TextTree(LiteralFor(text))
    case Number(digits) => NumberTree("", digits)
    case Object(fields) => Container("", true, ItemsFor(v, 0), "")
    case Array(items) => Container("", false, ItemsFor(v, 0), "")
  }

  function ItemsFor(v: Json, i: nat): Items
    requires (v.Object? && i <= |v.fields|) || (v.Array? && i <= |v.items|)
    decreases v, if v.Object? then |v.fields| - i + 1 else |v.items| - i + 1
  {
    if v.Object? then
      if i == |v.fields| then End
      else Item(Name(LiteralFor(v.fields[i].key), ""), TreeFor(v.fields[i].value), "", ItemsFor(v, i + 1))
    else
      if i == |v.items| then End
      else Item(Name(LiteralFor(""), ""), TreeFor(v.items[i]), "", ItemsFor(v, i + 1))
  }

  function Print(v: Json): string { Written(TreeFor(v)) }

  lemma {:induction false} UnitsMean(s: string)
    requires forall c :: c in s ==> PrintableChar(c)
    ensures ValidUnits(UnitsFor(s)) && UnitsString(UnitsFor(s)) == s
  {
    if s != "" {
      assert s[0] in s;
      UnitMeans(s[0]);
      hide UnitFor, UnitChar, ValidUnit, ValidUnits, UnitsString;
      UnitsMean(s[1..]);
      UnitsSplit(UnitFor(s[0]), UnitsFor(s[1..]));
      FirstAndRest(s);
    }
  }

  lemma UnitMeans(c: char)
    requires PrintableChar(c)
    ensures ValidUnit(UnitFor(c)) && UnitChar(UnitFor(c)) == c
  {
  }

  lemma {:induction false} TreeMeans(v: Json, depth: nat)
    requires InSchema(v, depth)
    ensures ValidTree(TreeFor(v)) && Meaning(TreeFor(v)) == v
    decreases v
  {
    match v
    case Text(text) => UnitsMean(text);
    case Number(digits) =>
    case Object(fields) => FieldsMean(v, 0, depth);
    case Array(items) => ElementsMean(v, 0, depth);
  }

  lemma {:induction false} FieldsMean(v: Json, i: nat, depth: nat)
    requires InSchema(v, depth) && v.Object? && i <= |v.fields|
    ensures ValidItems(ItemsFor(v, i)) && Fields(ItemsFor(v, i)) == v.fields[i..]
    decreases v, |v.fields| - i + 1
  {
    if i < |v.fields| {
      var f := v.fields[i];
      assert f in v.fields;
      UnitsMean(f.key);
      TreeMeans(f.value, depth + 1);
      FieldsMean(v, i + 1, depth);
      assert v.fields[i..] == [f] + v.fields[i + 1..];
    }
  }

  lemma {:induction false} ElementsMean(v: Json, i: nat, depth: nat)
    requires InSchema(v, depth) && v.Array? && i <= |v.items|
    ensures ValidItems(ItemsFor(v, i)) && Elements(ItemsFor(v, i)) == v.items[i..]
    decreases v, |v.items| - i + 1
  {
    if i < |v.items| {
      assert v.items[i] in v.items;
      TreeMeans(v.items[i], depth + 1);
      ElementsMean(v, i + 1, depth);
      assert v.items[i..] == [v.items[i]] + v.items[i + 1..];
    }
  }

  /** Every value of the schema survives printing and parsing. */
  lemma PrintThenParse(v: Json)
    requires InSchema(v, 0)
    ensures Parse(Print(v)) == Some(v)
  {
    TreeMeans(v, 0);
    assert Print(v) == Written(TreeFor(v)) + "";
    assert JsonText(Print(v), v);
    ParsesExactly(Print(v), v);
  }
}
