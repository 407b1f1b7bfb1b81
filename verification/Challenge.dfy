/**
 * The challenge URL of the verification bridge: percent decoding, the test that a URL carries
 * the token the handoff is bound to, and the rewriting that leaves only the CAPTCHA method.
 */
module Challenge {

  import opened ChallengeJson
  import opened Wrappers

  const ORIGIN: string := "https://verify.proton.me"
  const MAX_URL: nat := 16384
  const MAX_TOKEN: nat := 8192
  const DIGEST_SIZE: nat := 64

  // --------------------------------------------------------- percent decoding

  predicate Visible(c: char) { 0x21 <= c as int <= 0x7e }

  predicate Printable(s: string, maximum: nat) {
    s != "" && |s| <= maximum && forall c :: c in s ==> Visible(c)
  }

  /** One character of a component: as itself, or by its code. */
  datatype Octet = Raw(c: char) | Percent(high: char, low: char)

  predicate ValidOctet(o: Octet) {
    match o
    case Raw(c) => c != '%' && c != '+' && Visible(c)
    case Percent(high, low) =>
      HexDigit(high).Some? && HexDigit(low).Some? && Visible(OctetChar(o))
  }

  function OctetText(o: Octet): string {
    match o
    case Raw(c) => [c]
    case Percent(high, low) => ['%', high, low]
  }

  function OctetChar(o: Octet): char
    requires o.Percent? ==> HexDigit(o.high).Some? && HexDigit(o.low).Some?
  {
    match o
    case Raw(c) => c
    case Percent(high, low) => (HexDigit(high).value * 16 + HexDigit(low).value) as char
  }

  predicate ValidOctets(octets: seq<Octet>) { forall o :: o in octets ==> ValidOctet(o) }

  function OctetsText(octets: seq<Octet>): string {
    if octets == [] then "" else OctetText(octets[0]) + OctetsText(octets[1..])
  }

  function OctetsString(octets: seq<Octet>): string
    requires ValidOctets(octets)
  {
    if octets == [] then ""
    else
      assert ValidOctet(octets[0]);
      [OctetChar(octets[0])] + OctetsString(octets[1..])
  }

  /** The decoded text, when every character of it is visible. */
  function Decoded(s: string): Option<string> {
    if s == "" then Some("")
    else
      var o := if s[0] == '%' && |s| >= 3 then Percent(s[1], s[2]) else Raw(s[0]);
      if !ValidOctet(o) then None
      else match Decoded(s[|OctetText(o)|..])
        case None => None
        case Some(rest) => Some([OctetChar(o)] + rest)
  }

  lemma OctetsSplit(o: Octet, more: seq<Octet>)
    requires ValidOctet(o) && ValidOctets(more)
    ensures ValidOctets([o] + more)
    ensures OctetsText([o] + more) == OctetText(o) + OctetsText(more)
    ensures OctetsString([o] + more) == [OctetChar(o)] + OctetsString(more)
  {
    assert ([o] + more)[1..] == more;
  }

  lemma {:induction false} DecodedIsWritten(s: string) returns (octets: seq<Octet>)
    requires Decoded(s).Some?
    ensures ValidOctets(octets) && OctetsText(octets) == s && OctetsString(octets) == Decoded(s).value
  {
    octets := [];
    if s != "" {
      var o := if s[0] == '%' && |s| >= 3 then Percent(s[1], s[2]) else Raw(s[0]);
      assert s == OctetText(o) + s[|OctetText(o)|..];
      var more := DecodedIsWritten(s[|OctetText(o)|..]);
      octets := [o] + more;
      OctetsSplit(o, more);
    }
  }

  lemma {:induction false} WrittenIsDecoded(octets: seq<Octet>)
    requires ValidOctets(octets)
    ensures Decoded(OctetsText(octets)) == Some(OctetsString(octets))
  {
    if octets != [] {
      var o, more := octets[0], octets[1..];
      assert octets == [o] + more;
      OctetsSplit(o, more);
      WrittenIsDecoded(more);
      var s := OctetsText(octets);
      assert s[|OctetText(o)|..] == OctetsText(more);
      assert s[0] == OctetText(o)[0];
      assert o.Percent? ==> |s| >= 3 && s[1] == o.high && s[2] == o.low;
    }
  }

  /** Decoding accepts exactly the percent-encodings of visible text. */
  lemma DecodesExactly(s: string, text: string)
    ensures Decoded(s) == Some(text) <==>
      exists octets :: ValidOctets(octets) && OctetsText(octets) == s && OctetsString(octets) == text
  {
    if Decoded(s) == Some(text) {
      var octets := DecodedIsWritten(s);
    }
    if octets :| ValidOctets(octets) && OctetsText(octets) == s && OctetsString(octets) == text {
      WrittenIsDecoded(octets);
    }
  }

  function Prefixed(out: string, rest: Option<string>): Option<string> {
    match rest
    case None => None
    case Some(text) => Some(out + text)
  }

  lemma PrefixedMore(out: string, c: char, rest: Option<string>)
    ensures Prefixed(out, Prefixed([c], rest)) == Prefixed(out + [c], rest)
    ensures Prefixed("", rest) == rest && Prefixed(out, Some("")) == Some(out)
  {
    if rest.Some? {
      assert out + ([c] + rest.value) == (out + [c]) + rest.value;
      assert "" + rest.value == rest.value;
    }
    assert out + "" == out;
  }

  /** What one turn of the decoding loop reads at `i`. */
  lemma DecodedStep(value: string, i: nat)
    requires i < |value|
    ensures var o := if value[i] == '%' && i + 2 < |value| then Percent(value[i + 1], value[i + 2]) else Raw(value[i]);
      Decoded(value[i..]) ==
      if ValidOctet(o) then Prefixed([OctetChar(o)], Decoded(value[i + |OctetText(o)|..])) else None
  {
    var s := value[i..];
    var o := if s[0] == '%' && |s| >= 3 then Percent(s[1], s[2]) else Raw(s[0]);
    assert s[|OctetText(o)|..] == value[i + |OctetText(o)|..];
  }

  method Decode(value: string) returns (output: Option<string>)
    ensures output == Decoded(value)
  {
    hide Decoded, Prefixed;
    var out := "";
    var i := 0;
    assert value[0..] == value;
    PrefixedMore("", ' ', Decoded(value));
    while i < |value|
      invariant 0 <= i <= |value|
      invariant Decoded(value) == Prefixed(out, Decoded(value[i..]))
    {
      DecodedStep(value, i);
      NothingPrefixed(out);
      var c := value[i];
      if c == '%' {
        if i + 2 >= |value| {
          return None;
        }
        var high, low := HexDigit(value[i + 1]), HexDigit(value[i + 2]);
        if high.None? || low.None? {
          return None;
        }
        c := (high.value * 16 + low.value) as char;
        i := i + 2;
      } else if c == '+' {
        c := ' ';
      }
      if !Visible(c) {
        return None;
      }
      i := i + 1;
      PrefixedMore(out, c, Decoded(value[i..]));
      out := out + [c];
    }
    DecodedEnd(value, i);
    PrefixedMore(out, ' ', Some(""));
    return Some(out);
  }

  lemma NothingPrefixed(out: string)
    ensures Prefixed(out, None) == None
  {
  }

  lemma DecodedEnd(value: string, i: nat)
    requires i == |value|
    ensures Decoded(value[i..]) == Some("")
  {
  }

  // ------------------------------------------------------------ query strings

  /** The first position of `c`, or the length. */
  function Find(s: string, c: char): (r: nat)
    ensures r <= |s|
    ensures forall i :: 0 <= i < r ==> s[i] != c
    ensures r < |s| ==> s[r] == c
  {
    if s == "" || s[0] == c then 0 else 1 + Find(s[1..], c)
  }

  /** The pairs of a query, cut at every `&`. */
  function Pairs(query: string): (r: seq<string>)
    ensures r != []
    decreases |query|
  {
    var i := Find(query, '&');
    if i == |query| then [query] else [query[..i]] + Pairs(query[i + 1..])
  }

  function Terminated(pairs: seq<string>): string {
    if pairs == [] then "" else pairs[0] + "&" + Terminated(pairs[1..])
  }

  predicate NoSeparator(pairs: seq<string>) { forall p :: p in pairs ==> '&' !in p }

  function KeyOf(pair: string): Option<string> { Decoded(pair[..Find(pair, '=')]) }

  function ValueOf(pair: string): Option<string> {
    var i := Find(pair, '=');
    if i == |pair| then None else Decoded(pair[i + 1..])
  }

  predicate Readable(pairs: seq<string>) { forall p :: p in pairs ==> KeyOf(p).Some? }

  predicate Chosen(pair: string, keys: set<string>) {
    KeyOf(pair).Some? && KeyOf(pair).value in keys
  }

  /** The pairs with one of the given keys, in order. */
  function Named(pairs: seq<string>, keys: set<string>): seq<string> {
    if pairs == [] then []
    else (if Chosen(pairs[0], keys) then [pairs[0]] else []) + Named(pairs[1..], keys)
  }

  /** The pairs with none of them. */
  function Others(pairs: seq<string>, keys: set<string>): seq<string> {
    if pairs == [] then []
    else (if Chosen(pairs[0], keys) then [] else [pairs[0]]) + Others(pairs[1..], keys)
  }

  /** The token of a query whose keys all decode and which names it exactly once. */
  function TokenOf(pairs: seq<string>): Option<string> {
    var tokens := Named(pairs, {"token"});
    if !Readable(pairs) || |tokens| != 1 then None
    else match ValueOf(tokens[0])
      case None => None
      case Some(value) => if Printable(value, MAX_TOKEN) then Some(value) else None
  }

  /** The query of a challenge URL: the origin, at most one slash, a question mark, no fragment. */
  function QueryOf(url: string): Option<string> {
    if !(ORIGIN <= url) then None
    else
      var after := url[|ORIGIN|..];
      var rest := if after != "" && after[0] == '/' then after[1..] else after;
      if rest == "" || rest[0] != '?' || '#' in rest then None else Some(rest[1..])
  }

  function TokenIn(url: string): Option<string> {
    match QueryOf(url)
    case None => None
    case Some(query) => TokenOf(Pairs(query))
  }

  // ------------------------------------------------------------------- lemmas

  lemma {:induction false} FindAt(a: string, c: char, b: string)
    requires c !in a
    ensures Find(a + [c] + b, c) == |a|
  {
    var s := a + [c] + b;
    if a != "" {
      assert s[0] == a[0] && s[1..] == a[1..] + [c] + b;
      FindAt(a[1..], c, b);
    }
  }

  lemma PairsCut(a: string, b: string)
    requires '&' !in a
    ensures Pairs(a + "&" + b) == [a] + Pairs(b)
  {
    var s := a + "&" + b;
    FindAt(a, '&', b);
    assert s[..|a|] == a && s[|a| + 1..] == b;
  }

  lemma {:induction false} PairsCutAll(pairs: seq<string>, rest: string)
    requires NoSeparator(pairs)
    ensures Pairs(Terminated(pairs) + rest) == pairs + Pairs(rest)
  {
    hide Pairs, Find;
    if pairs == [] {
      assert Terminated(pairs) + rest == rest;
      assert pairs + Pairs(rest) == Pairs(rest);
    } else {
      var first, others := pairs[0], pairs[1..];
      assert first in pairs && pairs == [first] + others;
      assert '&' !in first && NoSeparator(others);
      hide Terminated, NoSeparator;
      TerminatedFirst(first, others, rest);
      PairsCut(first, Terminated(others) + rest);
      PairsCutAll(others, rest);
      Associate([first], others, Pairs(rest));
    }
  }

  lemma Associate(a: seq<string>, b: seq<string>, c: seq<string>)
    ensures a + (b + c) == (a + b) + c
  {
  }

  lemma TerminatedFirst(first: string, others: seq<string>, rest: string)
    ensures Terminated([first] + others) + rest == first + "&" + (Terminated(others) + rest)
  {
    assert ([first] + others)[1..] == others;
    var t := Terminated(others);
    assert first + "&" + t + rest == first + "&" + (t + rest);
  }

  /** No pair has an `&`, nor any character that the query lacks. */
  lemma {:induction false} PairsLack(query: string, c: char)
    requires c == '&' || c !in query
    ensures forall p :: p in Pairs(query) ==> c !in p
    decreases |query|
  {
    var i := Find(query, '&');
    if i == |query| {
      assert Pairs(query) == [query];
      assert c !in query;
    } else {
      PairsLack(query[i + 1..], c);
      assert c !in query[..i];
    }
  }

  lemma NamedFirst(first: string, more: seq<string>, keys: set<string>)
    ensures Named([first] + more, keys) == (if Chosen(first, keys) then [first] else []) + Named(more, keys)
    ensures Others([first] + more, keys) == (if Chosen(first, keys) then [] else [first]) + Others(more, keys)
  {
    hide KeyOf;
    assert ([first] + more)[0] == first && ([first] + more)[1..] == more;
  }

  lemma {:induction false} NamedAppend(a: seq<string>, b: seq<string>, keys: set<string>)
    ensures Named(a + b, keys) == Named(a, keys) + Named(b, keys)
    ensures Others(a + b, keys) == Others(a, keys) + Others(b, keys)
  {
    if a == [] {
      assert a + b == b;
    } else {
      var first, more := a[0], a[1..];
      assert a == [first] + more;
      hide *;
      Associate([first], more, b);
      Associate(if Chosen(first, keys) then [first] else [], Named(more, keys), Named(b, keys));
      Associate(if Chosen(first, keys) then [] else [first], Others(more, keys), Others(b, keys));
      NamedAppend(more, b, keys);
      NamedFirst(first, more, keys);
      NamedFirst(first, more + b, keys);
    }
  }

  /** Removing some keys leaves the pairs of every other key, in order. */
  lemma {:induction false} OthersKeep(pairs: seq<string>, gone: set<string>, keys: set<string>)
    requires gone !! keys
    ensures Named(Others(pairs, gone), keys) == Named(pairs, keys)
    ensures Named(Others(pairs, gone), gone) == []
    ensures Others(Others(pairs, gone), gone) == Others(pairs, gone)
    ensures forall p :: p in Others(pairs, gone) ==> p in pairs
  {
    if pairs != [] {
      OthersKeep(pairs[1..], gone, keys);
      var head := if Chosen(pairs[0], gone) then [] else [pairs[0]];
      NamedAppend(head, Others(pairs[1..], gone), keys);
      NamedAppend(head, Others(pairs[1..], gone), gone);
    }
  }

  lemma {:induction false} PlainDecodes(s: string)
    requires forall c :: c in s ==> Visible(c) && c != '%' && c != '+'
    ensures Decoded(s) == Some(s)
  {
    if s != "" {
      assert s[0] in s;
      PlainDecodes(s[1..]);
      assert s == [s[0]] + s[1..];
    }
  }

  predicate Word(s: string) { forall c :: c in s ==> 'a' <= c <= 'z' }

  /** A pair of two plain words. */
  lemma PlainPair(key: string, value: string)
    requires Word(key) && Word(value)
    ensures KeyOf(key + "=" + value) == Some(key) && ValueOf(key + "=" + value) == Some(value)
    ensures '&' !in key + "=" + value && '#' !in key + "=" + value
  {
    hide Find, Decoded;
    var s := key + "=" + value;
    FindAt(key, '=', value);
    assert s[..|key|] == key && s[|key| + 1..] == value;
    PlainDecodes(key);
    PlainDecodes(value);
  }

  // ---------------------------------------------------------------- rewriting

  const REPLACED: set<string> := {"methods", "embed"}
  const METHODS_PAIR: string := "methods" + "=" + "captcha"
  const EMBED_PAIR: string := "embed" + "=" + "true"

  /** The URL without its own `methods` and `embed`, and with the bridge's. */
  function Rewritten(url: string): Option<string> {
    var q := Find(url, '?');
    if q == |url| then None
    else
      var pairs := Pairs(url[q + 1..]);
      if !Readable(pairs) then None
      else Some(url[..q] + "?" + (Terminated(Others(pairs, REPLACED)) + (METHODS_PAIR + "&" + EMBED_PAIR)))
  }

  lemma Prefixes(base: string)
    requires base == ORIGIN || base == ORIGIN + "/"
    ensures '?' !in base
  {
  }

  /** A challenge URL is a base, a question mark and its query. */
  lemma Anatomy(url: string) returns (base: string)
    requires QueryOf(url).Some?
    ensures base == ORIGIN || base == ORIGIN + "/"
    ensures url == base + "?" + QueryOf(url).value && '#' !in QueryOf(url).value
    ensures Find(url, '?') == |base|
  {
    var after := url[|ORIGIN|..];
    base := if after[0] == '/' then ORIGIN + "/" else ORIGIN;
    assert url == ORIGIN + after;
    assert url == base + "?" + QueryOf(url).value;
    Prefixes(base);
    FindAt(base, '?', QueryOf(url).value);
  }

  lemma Assembly(base: string, query: string)
    requires base == ORIGIN || base == ORIGIN + "/"
    requires '#' !in query
    ensures QueryOf(base + "?" + query) == Some(query)
  {
    var url := base + "?" + query;
    assert url[..|ORIGIN|] == ORIGIN;
    var after := url[|ORIGIN|..];
    if base == ORIGIN {
      assert after == "?" + query;
      assert after[1..] == query;
    } else {
      assert after == "/" + ("?" + query);
      assert after[1..] == "?" + query;
      assert ("?" + query)[1..] == query;
    }
  }

  lemma OnePair(query: string)
    requires '&' !in query
    ensures Pairs(query) == [query]
  {
  }

  lemma NewPairs()
    ensures Pairs(METHODS_PAIR + "&" + EMBED_PAIR) == [METHODS_PAIR, EMBED_PAIR]
    ensures KeyOf(METHODS_PAIR) == Some("methods") && ValueOf(METHODS_PAIR) == Some("captcha")
    ensures KeyOf(EMBED_PAIR) == Some("embed") && ValueOf(EMBED_PAIR) == Some("true")
    ensures '#' !in METHODS_PAIR + "&" + EMBED_PAIR
  {
    hide Pairs, KeyOf, ValueOf;
    PlainPair("methods", "captcha");
    PlainPair("embed", "true");
    PairsCut(METHODS_PAIR, EMBED_PAIR);
    OnePair(EMBED_PAIR);
  }

  lemma {:induction false} TerminatedLacks(pairs: seq<string>, c: char)
    requires c != '&' && forall p :: p in pairs ==> c !in p
    ensures c !in Terminated(pairs)
  {
    if pairs != [] {
      TerminatedLacks(pairs[1..], c);
    }
  }

  /** What the rewriting does to the pairs of the query. */
  ghost predicate Kept(before: seq<string>, after: seq<string>) {
    && Readable(after)
    && after == Others(before, REPLACED) + [METHODS_PAIR, EMBED_PAIR]
    && Others(after, REPLACED) == Others(before, REPLACED)
    && Named(after, {"methods"}) == [METHODS_PAIR]
    && Named(after, {"embed"}) == [EMBED_PAIR]
    && (forall keys :: keys !! REPLACED ==> Named(after, keys) == Named(before, keys))
  }

  lemma NamedOne(pair: string, key: string, keys: set<string>)
    requires KeyOf(pair) == Some(key)
    ensures Named([pair], keys) == if key in keys then [pair] else []
    ensures Others([pair], keys) == if key in keys then [] else [pair]
  {
    hide KeyOf;
    assert [pair][1..] == [];
  }

  lemma NamedNewPairs(keys: set<string>)
    ensures Named([METHODS_PAIR, EMBED_PAIR], keys) ==
      (if "methods" in keys then [METHODS_PAIR] else []) + (if "embed" in keys then [EMBED_PAIR] else [])
    ensures Others([METHODS_PAIR, EMBED_PAIR], keys) ==
      (if "methods" in keys then [] else [METHODS_PAIR]) + (if "embed" in keys then [] else [EMBED_PAIR])
  {
    NewPairs();
    hide KeyOf, Named, Others;
    NamedOne(METHODS_PAIR, "methods", keys);
    NamedOne(EMBED_PAIR, "embed", keys);
    NamedAppend([METHODS_PAIR], [EMBED_PAIR], keys);
    assert [METHODS_PAIR] + [EMBED_PAIR] == [METHODS_PAIR, EMBED_PAIR];
  }

  lemma {:induction false} NoneNamed(pairs: seq<string>, keys: set<string>, more: set<string>)
    requires Named(pairs, more) == [] && keys <= more
    ensures Named(pairs, keys) == []
  {
    if pairs != [] {
      NoneNamed(pairs[1..], keys, more);
    }
  }

  lemma ReplacedIsGone(before: seq<string>, key: string)
    requires key == "methods" || key == "embed"
    ensures var after := Others(before, REPLACED) + [METHODS_PAIR, EMBED_PAIR];
      Named(after, {key}) == if key == "methods" then [METHODS_PAIR] else [EMBED_PAIR]
  {
    var kept, both := Others(before, REPLACED), [METHODS_PAIR, EMBED_PAIR];
    OthersKeep(before, REPLACED, {});
    NoneNamed(kept, {key}, REPLACED);
    NamedNewPairs({key});
    hide Named, Others;
    NamedAppend(kept, both, {key});
  }

  lemma OthersAreKept(before: seq<string>, keys: set<string>)
    requires keys !! REPLACED
    ensures var after := Others(before, REPLACED) + [METHODS_PAIR, EMBED_PAIR];
      Named(after, keys) == Named(before, keys) && Others(after, REPLACED) == Others(before, REPLACED)
  {
    var kept, both := Others(before, REPLACED), [METHODS_PAIR, EMBED_PAIR];
    OthersKeep(before, REPLACED, keys);
    NamedNewPairs(keys);
    NamedNewPairs(REPLACED);
    assert "methods" in REPLACED && "embed" in REPLACED;
    hide Named, Others;
    NamedAppend(kept, both, keys);
    NamedAppend(kept, both, REPLACED);
  }

  lemma StillReadable(before: seq<string>)
    requires Readable(before)
    ensures Readable(Others(before, REPLACED) + [METHODS_PAIR, EMBED_PAIR])
  {
    OthersKeep(before, REPLACED, {});
    NewPairs();
    hide KeyOf, Others, Named;
    var kept := Others(before, REPLACED);
    forall p | p in kept + [METHODS_PAIR, EMBED_PAIR]
      ensures KeyOf(p).Some?
    {
      assert p in kept || p == METHODS_PAIR || p == EMBED_PAIR;
    }
  }

  lemma RewrittenPairs(before: seq<string>)
    requires Readable(before)
    ensures Kept(before, Others(before, REPLACED) + [METHODS_PAIR, EMBED_PAIR])
  {
    hide Named, Others, Readable;
    var after := Others(before, REPLACED) + [METHODS_PAIR, EMBED_PAIR];
    StillReadable(before);
    ReplacedIsGone(before, "methods");
    ReplacedIsGone(before, "embed");
    OthersAreKept(before, {});
    forall keys | keys !! REPLACED
      ensures Named(after, keys) == Named(before, keys)
    {
      OthersAreKept(before, keys);
    }
  }

  lemma RewrittenQuery(query: string)
    requires '#' !in query
    ensures var pairs := Pairs(query);
      var rewritten := Terminated(Others(pairs, REPLACED)) + (METHODS_PAIR + "&" + EMBED_PAIR);
      '#' !in rewritten && Pairs(rewritten) == Others(pairs, REPLACED) + [METHODS_PAIR, EMBED_PAIR]
  {
    var pairs := Pairs(query);
    OthersKeep(pairs, REPLACED, {});
    PairsLack(query, '&');
    PairsLack(query, '#');
    NewPairs();
    hide Named, Others, Pairs, KeyOf, ValueOf, Terminated;
    var kept := Others(pairs, REPLACED);
    TerminatedLacks(kept, '#');
    PairsCutAll(kept, METHODS_PAIR + "&" + EMBED_PAIR);
  }

  lemma SameToken(before: seq<string>, after: seq<string>)
    requires Readable(before) && Kept(before, after)
    ensures TokenOf(after) == TokenOf(before)
  {
    hide Named, Others, Readable, ValueOf, Printable;
    assert Named(after, {"token"}) == Named(before, {"token"}) by {
      assert {"token"} !! REPLACED;
    }
  }

  /** The rewritten URL means what the old one did, with the two settings replaced. */
  lemma RewritingKeepsMeaning(url: string)
    requires TokenIn(url).Some?
    ensures Rewritten(url).Some?
    ensures var rewritten := Rewritten(url).value;
      && QueryOf(rewritten).Some?
      && Kept(Pairs(QueryOf(url).value), Pairs(QueryOf(rewritten).value))
      && TokenIn(rewritten) == TokenIn(url)
  {
    var base := Anatomy(url);
    var query := QueryOf(url).value;
    var pairs := Pairs(query);
    assert Readable(pairs);
    assert url[..|base|] == base && url[|base| + 1..] == query;
    hide QueryOf, Find, Pairs, Readable, Others, Terminated, Kept, TokenOf;
    var newQuery := Terminated(Others(pairs, REPLACED)) + (METHODS_PAIR + "&" + EMBED_PAIR);
    RewrittenQuery(query);
    RewrittenPairs(pairs);
    Assembly(base, newQuery);
    SameToken(pairs, Pairs(newQuery));
  }

  /** Writing the pairs back gives the query. */
  lemma {:induction false} PairsWrittenBack(query: string)
    ensures Terminated(Pairs(query)) == query + "&"
    decreases |query|
  {
    var i := Find(query, '&');
    if i == |query| {
      assert [query][1..] == [];
      assert query + "&" + "" == query + "&";
    } else {
      PairsWrittenBack(query[i + 1..]);
      var first, more := query[..i], query[i + 1..];
      TerminatedFirst(first, Pairs(more), "");
      assert query == first + "&" + more;
      assert Terminated([first] + Pairs(more)) + "" == Terminated([first] + Pairs(more));
    }
  }

  /** The bytes of the pairs that are replaced, with an ampersand for each. */
  function ReplacedLength(url: string): nat
    requires QueryOf(url).Some?
  {
    |Terminated(Named(Pairs(QueryOf(url).value), REPLACED))|
  }

  /** Each pair is either kept or replaced. */
  lemma {:induction false} LengthsSplit(pairs: seq<string>, keys: set<string>)
    ensures |Terminated(Others(pairs, keys))| + |Terminated(Named(pairs, keys))| == |Terminated(pairs)|
  {
    if pairs != [] {
      var first, more := pairs[0], pairs[1..];
      assert pairs == [first] + more;
      hide Named, Others, Terminated, Chosen;
      LengthsSplit(more, keys);
      NamedFirst(first, more, keys);
      TerminatedLength(first, more);
      TerminatedLength(first, Named(more, keys));
      TerminatedLength(first, Others(more, keys));
      assert [] + Named(more, keys) == Named(more, keys);
      assert [] + Others(more, keys) == Others(more, keys);
    }
  }

  lemma TerminatedLength(first: string, more: seq<string>)
    ensures |Terminated([first] + more)| == |first| + 1 + |Terminated(more)|
  {
    assert ([first] + more)[1..] == more;
  }

  /** The length of the rewritten URL, read off the old one. */
  lemma RewrittenLength(url: string)
    requires TokenIn(url).Some?
    ensures Rewritten(url).Some? && |Rewritten(url).value| == |url| + 27 - ReplacedLength(url)
  {
    hide Find, Pairs, Kept, QueryOf, Others, Named, Terminated, Readable;
    RewritingKeepsMeaning(url);
    var base := Anatomy(url);
    var query := QueryOf(url).value;
    PairsWrittenBack(query);
    LengthsSplit(Pairs(query), REPLACED);
    assert url[..|base|] == base && url[|base| + 1..] == query;
    assert |METHODS_PAIR| == 15 && |EMBED_PAIR| == 10;
  }

  const TOKEN_PAIR: string := "token" + "=" + "a"

  lemma PaddedPairs(filler: string)
    requires Word(filler)
    ensures var pad := "pad" + "=" + filler;
      && Pairs(TOKEN_PAIR + "&" + pad) == [TOKEN_PAIR] + [pad]
      && KeyOf(TOKEN_PAIR) == Some("token") && ValueOf(TOKEN_PAIR) == Some("a") && KeyOf(pad) == Some("pad")
      && '#' !in TOKEN_PAIR + "&" + pad
  {
    hide Pairs, KeyOf, ValueOf;
    PlainPair("token", "a");
    PlainPair("pad", filler);
    PairsCut(TOKEN_PAIR, "pad" + "=" + filler);
    OnePair("pad" + "=" + filler);
  }

  lemma PaddedToken(pad: string)
    requires KeyOf(TOKEN_PAIR) == Some("token") && ValueOf(TOKEN_PAIR) == Some("a") && KeyOf(pad) == Some("pad")
    ensures TokenOf([TOKEN_PAIR] + [pad]) == Some("a")
    ensures Named([TOKEN_PAIR] + [pad], REPLACED) == []
  {
    hide KeyOf, ValueOf, Named, Others;
    IsReplaced("token");
    IsReplaced("pad");
    NamedAppend([TOKEN_PAIR], [pad], {"token"});
    NamedAppend([TOKEN_PAIR], [pad], REPLACED);
    NamedOne(TOKEN_PAIR, "token", {"token"});
    NamedOne(pad, "pad", {"token"});
    NamedOne(TOKEN_PAIR, "token", REPLACED);
    NamedOne(pad, "pad", REPLACED);
  }

  /** A URL of the greatest length can carry its token and lose it by being rewritten. */
  lemma LongestUrlIsLost(filler: string) returns (url: string)
    requires Word(filler) && |filler| == 16347
    ensures |url| == MAX_URL && TokenIn(url).Some?
    ensures Rewritten(url).Some? && |Rewritten(url).value| > MAX_URL
  {
    var query := TOKEN_PAIR + "&" + ("pad" + "=" + filler);
    url := ORIGIN + "?" + query;
    assert |url| == MAX_URL;
    PaddedPairs(filler);
    PaddedToken("pad" + "=" + filler);
    Assembly(ORIGIN, query);
    hide Pairs, KeyOf, ValueOf, Rewritten, Others, Named, TokenOf, QueryOf;
    RewrittenLength(url);
  }

  // -------------------------------------------------------------- the handoff

  type Digest = string -> string

  /** What a scan of the pairs has found so far: at most one token, and it is well formed. */
  ghost predicate Scanned(done: seq<string>, count: nat, token: string) {
    && Readable(done)
    && |Named(done, {"token"})| == count <= 1
    && (count == 1 ==> ValueOf(Named(done, {"token"})[0]) == Some(token) && Printable(token, MAX_TOKEN))
  }

  /** The pair that makes a scan stop is a reason for there being no token. */
  lemma ScanStops(done: seq<string>, pair: string, left: seq<string>)
    requires
      || KeyOf(pair).None?
      || (KeyOf(pair) == Some("token") &&
          (Named(done, {"token"}) != [] || ValueOf(pair).None? || !Printable(ValueOf(pair).value, MAX_TOKEN)))
    ensures TokenOf(done + ([pair] + left)) == None
  {
    var all := done + ([pair] + left);
    hide KeyOf, ValueOf, Named, Others, Printable;
    assert all[|done|] == pair;
    NamedAppend(done, [pair] + left, {"token"});
    NamedAppend([pair], left, {"token"});
    if KeyOf(pair) == Some("token") {
      NamedOne(pair, "token", {"token"});
    }
  }

  lemma ScanGoesOn(done: seq<string>, count: nat, token: string, pair: string)
    requires Scanned(done, count, token) && KeyOf(pair).Some?
    ensures KeyOf(pair) != Some("token") ==> Scanned(done + [pair], count, token)
    ensures KeyOf(pair) == Some("token") && count == 0 && ValueOf(pair).Some? && Printable(ValueOf(pair).value, MAX_TOKEN) ==>
      Scanned(done + [pair], 1, ValueOf(pair).value)
  {
    hide KeyOf, ValueOf, Named, Others, Printable;
    NamedAppend(done, [pair], {"token"});
    NamedOne(pair, KeyOf(pair).value, {"token"});
  }

  /** One cut of the loop over a query: the pair up to the next `&`, and the pairs left. */
  lemma CutNext(text: string, start: nat, end: nat, pair: string) returns (left: seq<string>)
    requires start <= |text| && end == start + Find(text[start..], '&')
    requires pair == text[start..end]
    ensures Pairs(text[start..]) == [pair] + left
    ensures end == |text| ==> left == []
    ensures end < |text| ==> left == Pairs(text[end + 1..])
  {
    var tail := text[start..];
    assert tail[..end - start] == pair;
    if end == |text| {
      left := [];
      assert tail == pair;
    } else {
      left := Pairs(text[end + 1..]);
      assert tail[end - start + 1..] == text[end + 1..];
    }
  }

  lemma Moved(all: seq<string>, done: seq<string>, pair: string, left: seq<string>)
    requires all == done + ([pair] + left)
    ensures all == (done + [pair]) + left
  {
  }

  lemma IsReplaced(key: string)
    ensures key in REPLACED <==> key == "methods" || key == "embed"
  {
  }

  lemma TokenNeedsQuery(url: string)
    requires TokenIn(url).Some?
    ensures QueryOf(url).Some?
  {
  }

  lemma Unreadable(done: seq<string>, pair: string, left: seq<string>)
    requires KeyOf(pair).None?
    ensures !Readable(done + ([pair] + left))
  {
    hide KeyOf;
    assert (done + ([pair] + left))[|done|] == pair;
  }

  lemma ReadableAppend(done: seq<string>, pair: string)
    requires Readable(done) && KeyOf(pair).Some?
    ensures Readable(done + [pair])
  {
    hide KeyOf;
  }

  class Handoff {
    var url: string
    var digest: string
    var methods: set<string>
    var expires: int

    /** The URL carries, exactly once, the token whose digest the handoff holds. */
    ghost predicate Bound(candidate: string, sha: Digest, now: int)
      reads this
    {
      && now < expires
      && |candidate| <= MAX_URL
      && TokenIn(candidate).Some?
      && |sha(TokenIn(candidate).value)| == DIGEST_SIZE
      && sha(TokenIn(candidate).value) == digest
    }

    method Matches(candidate: string, sha: Digest, now: int) returns (r: bool)
      ensures r <==> Bound(candidate, sha, now)
    {
      if now >= expires || |candidate| > MAX_URL || !(ORIGIN <= candidate) {
        return false;
      }
      var rest := candidate[|ORIGIN|..];
      if rest != "" && rest[0] == '/' {
        rest := rest[1..];
      }
      if rest == "" || rest[0] != '?' || '#' in rest {
        return false;
      }
      assert QueryOf(candidate) == Some(rest[1..]);
      var token := Scan(rest, 1);
      return token.Some? && |sha(token.value)| == DIGEST_SIZE && sha(token.value) == digest;
    }

    static method Key(pair: string) returns (key: Option<string>)
      ensures key == KeyOf(pair)
    {
      key := Decode(pair[..Find(pair, '=')]);
    }

    static method Value(pair: string) returns (value: Option<string>)
      ensures value == ValueOf(pair)
    {
      var equals := Find(pair, '=');
      if equals == |pair| {
        return None;
      }
      value := Decode(pair[equals + 1..]);
    }

    /** The loop over the pairs of a query that starts at `first`. */
    static method Scan(rest: string, first: nat) returns (r: Option<string>)
      requires first <= |rest|
      ensures r == TokenOf(Pairs(rest[first..]))
    {
      hide *;
      ghost var all := Pairs(rest[first..]);
      ghost var done: seq<string> := [];
      var count, token := 0, "";
      var start := first;
      NothingScanned();
      assert done + Pairs(rest[start..]) == all;
      while true
        invariant first <= start <= |rest|
        invariant all == done + Pairs(rest[start..])
        invariant Scanned(done, count, token)
        decreases |rest| - start
      {
        var end := start + Find(rest[start..], '&');
        var pair := rest[start..end];
        ghost var left := CutNext(rest, start, end, pair);
        Moved(all, done, pair, left);
        var key := Key(pair);
        if key.None? {
          ScanStops(done, pair, left);
          return None;
        }
        ScanGoesOn(done, count, token, pair);
        if key.value == "token" {
          var value := Value(pair);
          if count != 0 || value.None? || !Printable(value.value, MAX_TOKEN) {
            ScanCounts(done, count, token);
            ScanStops(done, pair, left);
            return None;
          }
          count, token := 1, value.value;
        }
        done := done + [pair];
        if end == |rest| {
          assert done + left == done;
          break;
        }
        start := end + 1;
      }
      ScanEnds(all, count, token);
      return if count == 1 then Some(token) else None;
    }

    method CaptchaOnly() returns (ok: bool)
      modifies this
      ensures ok <==> "captcha" in old(methods) && Rewritten(old(url)).Some?
      ensures ok ==> url == Rewritten(old(url)).value && methods == {"captcha"}
      ensures !ok ==> unchanged(this)
      ensures digest == old(digest) && expires == old(expires)
      ensures ok && TokenIn(old(url)).Some? ==>
        && TokenIn(url) == TokenIn(old(url))
        && QueryOf(url).Some?
        && Kept(Pairs(QueryOf(old(url)).value), Pairs(QueryOf(url).value))
      ensures ok ==> forall sha, now :: old(Bound(url, sha, now)) ==>
        QueryOf(old(url)).Some? &&
        (Bound(url, sha, now) <==> |old(url)| + 27 - ReplacedLength(old(url)) <= MAX_URL)
    {
      hide Find, Pairs, Readable, Others, Terminated, Kept, TokenIn, QueryOf, ReplacedLength;
      if "captcha" !in methods {
        return false;
      }
      var query := Find(url, '?');
      if query == |url| {
        return false;
      }
      var kept := Filter(url, query + 1);
      if kept.None? {
        return false;
      }
      if TokenIn(url).Some? {
        TokenNeedsQuery(url);
        RewritingKeepsMeaning(url);
        RewrittenLength(url);
      }
      url := url[..query] + "?" + (kept.value + (METHODS_PAIR + "&" + EMBED_PAIR));
      methods := {"captcha"};
      return true;
    }

    /** The loop that copies every pair but the two that are replaced. */
    static method Filter(text: string, first: nat) returns (r: Option<string>)
      requires first <= |text|
      ensures var pairs := Pairs(text[first..]);
        r == if Readable(pairs) then Some(Terminated(Others(pairs, REPLACED))) else None
    {
      hide *;
      ghost var all := Pairs(text[first..]);
      ghost var done: seq<string> := [];
      var out := "";
      var start := first;
      NothingFiltered();
      assert done + Pairs(text[start..]) == all;
      while true
        invariant first <= start <= |text|
        invariant all == done + Pairs(text[start..])
        invariant Readable(done) && out == Terminated(Others(done, REPLACED))
        decreases |text| - start
      {
        var end := start + Find(text[start..], '&');
        var pair := text[start..end];
        ghost var left := CutNext(text, start, end, pair);
        Moved(all, done, pair, left);
        var key := Key(pair);
        if key.None? {
          Unreadable(done, pair, left);
          return None;
        }
        ReadableAppend(done, pair);
        IsReplaced(key.value);
        NamedOne(pair, key.value, REPLACED);
        NamedAppend(done, [pair], REPLACED);
        if key.value != "methods" && key.value != "embed" {
          TerminatedAppend(Others(done, REPLACED), pair);
          out := out + (pair + "&");
        } else {
          assert Others(done, REPLACED) + [] == Others(done, REPLACED);
        }
        done := done + [pair];
        if end == |text| {
          assert done + left == done;
          break;
        }
        start := end + 1;
      }
      return Some(out);
    }
  }

  lemma NothingScanned()
    ensures Scanned([], 0, "")
  {
  }

  lemma NothingFiltered()
    ensures Readable([]) && Terminated(Others([], REPLACED)) == ""
  {
  }

  lemma ScanCounts(done: seq<string>, count: nat, token: string)
    requires Scanned(done, count, token)
    ensures count != 0 ==> Named(done, {"token"}) != []
  {
  }

  lemma ScanEnds(all: seq<string>, count: nat, token: string)
    requires Scanned(all, count, token)
    ensures TokenOf(all) == if count == 1 then Some(token) else None
  {
  }

  lemma {:induction false} TerminatedAppend(pairs: seq<string>, pair: string)
    ensures Terminated(pairs + [pair]) == Terminated(pairs) + (pair + "&")
  {
    if pairs == [] {
      assert [pair][1..] == [];
      assert pairs + [pair] == [pair];
    } else {
      assert (pairs + [pair])[0] == pairs[0] && (pairs + [pair])[1..] == pairs[1..] + [pair];
      TerminatedAppend(pairs[1..], pair);
      var t := Terminated(pairs[1..]);
      assert pairs[0] + "&" + (t + (pair + "&")) == (pairs[0] + "&" + t) + (pair + "&");
    }
  }
}
