/**
 * The key that decides which requests are the same question (src/jsonrpc/mod.rs:158-194).
 *
 * The digest is opaque; what is proved is about the text fed to it: the method and the
 * sorted params, written one after the other with nothing in between.
 */
module CanonicalKey {
  import opened Upstreams
  import opened Json

  // Compact text, as serde_json writes it

  function Hex(n: nat): char
    requires n < 16
  {
    "0123456789abcdef"[n]
  }

  /** RFC 8259 section 7: the quote, the backslash and the controls are escaped. */
  function Escaped(c: char): string {
    if c == '\"' then ['\\', '\"']
    else if c == '\\' then ['\\', '\\']
    else if c as int == 8 then ['\\', 'b']
    else if c as int == 9 then ['\\', 't']
    else if c as int == 10 then ['\\', 'n']
    else if c as int == 12 then ['\\', 'f']
    else if c as int == 13 then ['\\', 'r']
    else if c as int < 32 then ['\\', 'u', '0', '0', Hex(c as int / 16), Hex(c as int % 16)]
    else [c]
  }

  /** The characters of a string and its closing quote. */
  function Quoted(s: string): string {
    if s == [] then ['\"'] else Escaped(s[0]) + Quoted(s[1..])
  }

  function Text(j: Json): string
    decreases j, 1
  {
    match j
    case Null => "null"
    case Bool(b) => if b then "true" else "false"
    case Number(token) => token
    case Str(s) => ['\"'] + Quoted(s)
    case Arr(items) => ['['] + ItemsText(items, true)
    case Obj(members) => ['{'] + MembersText(members, true)
  }

  function ItemsText(items: seq<Json>, first: bool): string
    decreases items, 0
  {
    if items == [] then [']']
    else (if first then [] else [',']) + Text(items[0]) + ItemsText(items[1..], false)
  }

  function MembersText(members: seq<Member<Json>>, first: bool): string
    decreases members, 0
  {
    if members == [] then ['}']
    else
      (if first then [] else [',']) + ['\"'] + Quoted(members[0].key) + [':'] + Text(members[0].value)
      + MembersText(members[1..], false)
  }

  // Number tokens: all that is assumed of them is their alphabet (RFC 8259 section 6)

  predicate NumberChar(c: char) {
    '0' <= c <= '9' || c == '-' || c == '+' || c == '.' || c == 'e' || c == 'E'
  }

  ghost predicate Printable(j: Json) {
    match j
    case Number(token) => token != [] && forall i :: 0 <= i < |token| ==> NumberChar(token[i])
    case Arr(items) => forall i :: 0 <= i < |items| ==> Printable(items[i])
    case Obj(members) => forall i :: 0 <= i < |members| ==> Printable(members[i].value)
    case _ => true
  }

  /** What can follow a value without being mistaken for more of it. */
  predicate Stops(rest: string) {
    rest == [] || !NumberChar(rest[0])
  }

  // The text determines the value

  lemma EscapedIsUnique(c: char, d: char, r: string, s: string)
    requires Escaped(c) + r == Escaped(d) + s
    ensures c == d && r == s
  {
    var x, y := Escaped(c), Escaped(d);
    assert x[0] == (x + r)[0] == (y + s)[0] == y[0];
    if |x| > 1 && |y| > 1 {
      assert x[1] == (x + r)[1] == (y + s)[1] == y[1];
      if |x| == 6 {
        assert x[4] == (x + r)[4] == (y + s)[4] == y[4];
        assert x[5] == (x + r)[5] == (y + s)[5] == y[5];
      }
    }
    assert x == y;
    assert r == (x + r)[|x|..] && s == (y + s)[|y|..];
  }

  lemma EscapedOpens(c: char)
    ensures Escaped(c) != [] && Escaped(c)[0] != '\"'
  {
  }

  lemma {:induction false} QuotedIsUnique(a: string, b: string, r: string, s: string)
    requires Quoted(a) + r == Quoted(b) + s
    ensures a == b && r == s
  {
    hide Escaped;
    if a != [] { EscapedOpens(a[0]); }
    if b != [] { EscapedOpens(b[0]); }
    if a == [] || b == [] {
      assert (Quoted(a) + r)[0] == (Quoted(b) + s)[0];
      assert r == (Quoted(a) + r)[|Quoted(a)|..];
      assert s == (Quoted(b) + s)[|Quoted(b)|..];
    } else {
      assert Quoted(a) + r == Escaped(a[0]) + (Quoted(a[1..]) + r);
      assert Quoted(b) + s == Escaped(b[0]) + (Quoted(b[1..]) + s);
      EscapedIsUnique(a[0], b[0], Quoted(a[1..]) + r, Quoted(b[1..]) + s);
      QuotedIsUnique(a[1..], b[1..], r, s);
      assert a == [a[0]] + a[1..] && b == [b[0]] + b[1..];
    }
  }

  /** The first character of a text says what kind of value it is. */
  lemma FirstChar(j: Json)
    requires Printable(j)
    ensures Text(j) != []
    ensures Text(j)[0] == match j
                          case Null => 'n'
                          case Bool(b) => if b then 't' else 'f'
                          case Number(token) => token[0]
                          case Str(_) => '\"'
                          case Arr(_) => '['
                          case Obj(_) => '{'
    ensures j.Number? ==> NumberChar(Text(j)[0])
  {
  }

  lemma Assoc(a: string, b: string, c: string)
    ensures (a + b) + c == a + (b + c)
  {
  }

  /** What is left of two equal texts once an equal beginning is taken off. */
  lemma StripOpening(p: string, x: string, y: string, r: string, s: string)
    requires (p + x) + r == (p + y) + s
    ensures x + r == y + s
  {
    Assoc(p, x, r);
    Assoc(p, y, s);
    Strip(p, x + r, y + s);
  }

  lemma Strip(p: string, r: string, s: string)
    requires p + r == p + s
    ensures r == s
  {
    assert r == (p + r)[|p|..] && s == (p + s)[|p|..];
  }

  /** How many characters of a number are at the front. */
  function Span(t: string): nat {
    if t == [] || !NumberChar(t[0]) then 0 else 1 + Span(t[1..])
  }

  lemma {:induction false} SpanIsToken(token: string, rest: string)
    requires Stops(rest)
    requires forall i :: 0 <= i < |token| ==> NumberChar(token[i])
    ensures Span(token + rest) == |token|
  {
    if token == [] {
      assert token + rest == rest;
    } else {
      assert (token + rest)[1..] == token[1..] + rest;
      SpanIsToken(token[1..], rest);
    }
  }

  lemma TokenIsUnique(a: string, b: string, r: string, s: string)
    requires a + r == b + s && Stops(r) && Stops(s)
    requires forall i :: 0 <= i < |a| ==> NumberChar(a[i])
    requires forall i :: 0 <= i < |b| ==> NumberChar(b[i])
    ensures a == b && r == s
  {
    SpanIsToken(a, r);
    SpanIsToken(b, s);
    assert a == (a + r)[..|a|] && b == (b + s)[..|b|];
    assert r == (a + r)[|a|..] && s == (b + s)[|b|..];
  }

  lemma SameKind(a: Json, b: Json, r: string, s: string)
    requires Printable(a) && Printable(b) && Text(a) + r == Text(b) + s
    ensures match a
            case Null => b.Null?
            case Bool(x) => b == a
            case Number(_) => b.Number?
            case Str(_) => b.Str?
            case Arr(_) => b.Arr?
            case Obj(_) => b.Obj?
  {
    FirstChar(a);
    FirstChar(b);
    assert Text(a)[0] == (Text(a) + r)[0] == (Text(b) + s)[0] == Text(b)[0];
    hide Text;
  }

  /** No text is the beginning of another: a text, and something that cannot continue it,
      determine the value that was written and what follows it. */
  lemma {:induction false} TextIsUnique(a: Json, b: Json, r: string, s: string)
    requires Printable(a) && Printable(b) && Stops(r) && Stops(s)
    requires Text(a) + r == Text(b) + s
    ensures a == b && r == s
    decreases a, 1
  {
    hide Quoted, ItemsText, MembersText, Stops;
    SameKind(a, b, r, s);
    match a
    case Null => Strip(Text(a), r, s);
    case Bool(_) => Strip(Text(a), r, s);
    case Number(token) => TokenIsUnique(token, b.token, r, s);
    case Str(x) =>
      StripOpening(['\"'], Quoted(x), Quoted(b.s), r, s);
      QuotedIsUnique(x, b.s, r, s);
    case Arr(items) =>
      StripOpening(['['], ItemsText(items, true), ItemsText(b.items, true), r, s);
      ItemsAreUnique(items, b.items, true, r, s);
    case Obj(members) =>
      StripOpening(['{'], MembersText(members, true), MembersText(b.members, true), r, s);
      MembersAreUnique(members, b.members, true, r, s);
  }

  function Comma(first: bool): string {
    if first then [] else [',']
  }

  lemma ItemsUnfold(items: seq<Json>, first: bool, r: string)
    requires items != []
    ensures ItemsText(items, first) + r == Comma(first) + (Text(items[0]) + (ItemsText(items[1..], false) + r))
  {
    var c, t, rest := Comma(first), Text(items[0]), ItemsText(items[1..], false);
    assert ItemsText(items, first) == c + t + rest;
    hide Text, ItemsText, Comma;
    Assoc(c + t, rest, r);
    Assoc(c, t, rest + r);
  }

  lemma ItemsStart(items: seq<Json>, first: bool, r: string)
    requires forall i :: 0 <= i < |items| ==> Printable(items[i])
    ensures ItemsText(items, first) + r != []
    ensures (ItemsText(items, first) + r)[0] == ']' <==> items == []
    ensures !first ==> Stops(ItemsText(items, first) + r)
  {
    if items != [] {
      FirstChar(items[0]);
      ItemsUnfold(items, first, r);
      hide ItemsText, Text;
    }
  }

  lemma {:induction false} ItemsAreUnique(a: seq<Json>, b: seq<Json>, first: bool, r: string, s: string)
    requires forall i :: 0 <= i < |a| ==> Printable(a[i])
    requires forall i :: 0 <= i < |b| ==> Printable(b[i])
    requires ItemsText(a, first) + r == ItemsText(b, first) + s
    ensures a == b && r == s
    decreases a, 0
  {
    ItemsStart(a, first, r);
    ItemsStart(b, first, s);
    if a == [] {
      Strip([']'], r, s);
    } else {
      var x, y := ItemsText(a[1..], false) + r, ItemsText(b[1..], false) + s;
      ItemsUnfold(a, first, r);
      ItemsUnfold(b, first, s);
      Strip(Comma(first), Text(a[0]) + x, Text(b[0]) + y);
      ItemsStart(a[1..], false, r);
      ItemsStart(b[1..], false, s);
      TextIsUnique(a[0], b[0], x, y);
      ItemsAreUnique(a[1..], b[1..], false, r, s);
      assert a == [a[0]] + a[1..] && b == [b[0]] + b[1..];
    }
  }

  /** What follows a member's key. */
  function AfterKey(members: seq<Member<Json>>, r: string): string
    requires members != []
  {
    [':'] + (Text(members[0].value) + (MembersText(members[1..], false) + r))
  }

  lemma MembersUnfold(members: seq<Member<Json>>, first: bool, r: string)
    requires members != []
    ensures MembersText(members, first) + r == (Comma(first) + ['\"']) + (Quoted(members[0].key) + AfterKey(members, r))
  {
    var c, k := Comma(first) + ['\"'], Quoted(members[0].key);
    var t, rest := Text(members[0].value), MembersText(members[1..], false);
    assert MembersText(members, first) == c + k + [':'] + t + rest;
    assert AfterKey(members, r) == [':'] + (t + (rest + r));
    hide Text, MembersText, Quoted, Comma, AfterKey;
    Assoc(c + k + [':'] + t, rest, r);
    Assoc(c + k + [':'], t, rest + r);
    Assoc(c + k, [':'], t + (rest + r));
    Assoc(c, k, [':'] + (t + (rest + r)));
  }

  lemma MembersStart(members: seq<Member<Json>>, first: bool, r: string)
    ensures MembersText(members, first) + r != []
    ensures (MembersText(members, first) + r)[0] == '}' <==> members == []
    ensures !first ==> Stops(MembersText(members, first) + r)
  {
    if members != [] {
      MembersUnfold(members, first, r);
      hide MembersText, Quoted, AfterKey;
    }
  }

  lemma {:induction false} MembersAreUnique(a: seq<Member<Json>>, b: seq<Member<Json>>, first: bool, r: string,
      s: string)
    requires forall i :: 0 <= i < |a| ==> Printable(a[i].value)
    requires forall i :: 0 <= i < |b| ==> Printable(b[i].value)
    requires MembersText(a, first) + r == MembersText(b, first) + s
    ensures a == b && r == s
    decreases a, 0
  {
    MembersStart(a, first, r);
    MembersStart(b, first, s);
    if a == [] {
      Strip(['}'], r, s);
    } else {
      MembersUnfold(a, first, r);
      MembersUnfold(b, first, s);
      Strip(Comma(first) + ['\"'], Quoted(a[0].key) + AfterKey(a, r), Quoted(b[0].key) + AfterKey(b, s));
      QuotedIsUnique(a[0].key, b[0].key, AfterKey(a, r), AfterKey(b, s));
      var x, y := MembersText(a[1..], false) + r, MembersText(b[1..], false) + s;
      Strip([':'], Text(a[0].value) + x, Text(b[0].value) + y);
      MembersStart(a[1..], false, r);
      MembersStart(b[1..], false, s);
      TextIsUnique(a[0].value, b[0].value, x, y);
      MembersAreUnique(a[1..], b[1..], false, r, s);
      assert a == [a[0]] + a[1..] && b == [b[0]] + b[1..];
    }
  }

  // The key of a request

  /** The fields of an object as the library's map holds them. */
  function Fields(members: seq<Member<Json>>): map<string, Json> {
    if members == [] then map[] else map[members[0].key := Norm(members[0].value)] + Fields(members[1..])
  }

  const METHOD := "method"
  const PARAMS := "params"

  /** The text fed to the hasher; None for a body that is not keyed.  `idempotent` are the
      methods known to be idempotent reads. */
  function KeyText(body: Option<Json>, idempotent: set<string>): Option<string> {
    if body.None? || !body.value.Obj? then None
    else
      var request := Fields(body.value.members);
      var params := if PARAMS in request then request[PARAMS] else Arr([]);
      if METHOD !in request || !request[METHOD].Str? || request[METHOD].s !in idempotent then None
      else Some(Text(request[METHOD]) + Text(params))
  }

  class Xxh3Writer {
    /** Everything written so far; the digest is a function of it. */
    var fed: string

    constructor ()
      ensures fed == []
    {
      fed := [];
    }

    method Write(buf: string)
      modifies this
      ensures fed == old(fed) + buf
    {
      fed := fed + buf;
    }
  }

  method DedupKey(body: Option<Json>, idempotent: set<string>) returns (hashed: Option<string>)
    ensures hashed == KeyText(body, idempotent)
  {
    if body.None? || !body.value.Obj? {
      return None;
    }
    var request := Fields(body.value.members);
    var params := Arr([]);
    if PARAMS in request {
      params := request[PARAMS];
      request := request - {PARAMS};
      assert METHOD[0] != PARAMS[0];
    }
    if METHOD !in request || !request[METHOD].Str? {
      return None;
    }
    var name := request[METHOD].s;
    if name !in idempotent {
      return None;
    }
    var hasher := new Xxh3Writer();
    hasher.Write(Text(Str(name)));
    assert hasher.fed == Text(Str(name));
    hasher.Write(Text(params));
    hashed := Some(hasher.fed);
  }

  /** The question a body asks, read off what it means: a known read, and its params, with
      missing params read as the empty list (JSON-RPC 2.0 section 4.2). */
  function Question(body: Option<Json>, idempotent: set<string>): Option<(string, Value)> {
    if body.None? then None
    else
      match Meaning(body.value)
      case ObjValue(m) =>
        if "method" in m && m["method"].StrValue? && m["method"].s in idempotent
        then Some((m["method"].s, if "params" in m then m["params"] else ArrValue([])))
        else None
      case _ => None
  }

  lemma {:induction false} NormPrints(j: Json)
    requires Printable(j)
    ensures Printable(Norm(j))
    decreases j, 1
  {
    match j
    case Arr(items) => NormAllPrints(items);
    case Obj(members) => CollectPrints([], members);
    case _ =>
  }

  lemma {:induction false} NormAllPrints(items: seq<Json>)
    requires forall i :: 0 <= i < |items| ==> Printable(items[i])
    ensures forall i :: 0 <= i < |items| ==> Printable(NormAll(items)[i])
    decreases items, 0
  {
    if items != [] {
      NormPrints(items[0]);
      NormAllPrints(items[1..]);
    }
  }

  lemma {:induction false} CollectPrints(sofar: seq<Member<Json>>, members: seq<Member<Json>>)
    requires forall m :: m in sofar ==> Printable(m.value)
    requires forall i :: 0 <= i < |members| ==> Printable(members[i].value)
    ensures forall m :: m in Collect(sofar, members) ==> Printable(m.value)
    decreases members, 0
  {
    if members != [] {
      NormPrints(members[0].value);
      CollectPrints(Insert(sofar, members[0].key, Norm(members[0].value)), members[1..]);
    }
  }

  lemma {:induction false} FieldsMean(members: seq<Member<Json>>, key: string)
    requires forall i :: 0 <= i < |members| ==> Printable(members[i].value)
    ensures key in Fields(members) <==> key in MapOf(members)
    ensures key in MapOf(members) ==>
              var j := Fields(members)[key];
              Meaning(j) == MapOf(members)[key] && Normal(j) && Printable(j)
  {
    if members != [] {
      FieldsMean(members[1..], key);
      NormMeans(members[0].value);
      NormPrints(members[0].value);
    }
  }

  /** The texts of two keyed requests, taken apart. */
  lemma KeyTextIsUnique(name: string, params: Json, other: string, rest: Json)
    requires Printable(params) && Printable(rest)
    requires Text(Str(name)) + Text(params) == Text(Str(other)) + Text(rest)
    ensures name == other && params == rest
  {
    StripOpening(['\"'], Quoted(name), Quoted(other), Text(params), Text(rest));
    QuotedIsUnique(name, other, Text(params), Text(rest));
    assert Text(params) + [] == Text(rest) + [];
    TextIsUnique(params, rest, [], []);
  }

  ghost predicate PrintableBody(body: Option<Json>) {
    body.Some? ==> Printable(body.value)
  }

  /** A keyed body, its name and params as the map holds them. */
  lemma KeyParts(body: Option<Json>, idempotent: set<string>) returns (name: string, params: Json)
    requires PrintableBody(body)
    ensures KeyText(body, idempotent).Some? <==> Question(body, idempotent).Some?
    ensures KeyText(body, idempotent).Some? ==>
              && KeyText(body, idempotent).value == Text(Str(name)) + Text(params)
              && Question(body, idempotent).value == (name, Meaning(params))
              && Normal(params) && Printable(params)
  {
    name, params := "", Arr([]);
    if body.Some? && body.value.Obj? {
      var members := body.value.members;
      FieldsMean(members, METHOD);
      FieldsMean(members, PARAMS);
      if METHOD in Fields(members) && Fields(members)[METHOD].Str? {
        name := Fields(members)[METHOD].s;
      }
      if PARAMS in Fields(members) {
        params := Fields(members)[PARAMS];
      }
    }
  }

  lemma {:induction false} FieldsPush(members: seq<Member<Json>>, m: Member<Json>)
    ensures Fields(members + [m]) == Fields(members)[m.key := Norm(m.value)]
  {
    if members == [] {
      assert members + [m] == [m] && [m][1..] == [];
    } else {
      assert (members + [m])[1..] == members[1..] + [m];
      FieldsPush(members[1..], m);
    }
  }

  lemma {:induction false} FieldsHave(members: seq<Member<Json>>, key: string)
    requires forall i :: 0 <= i < |members| ==> members[i].key != key
    ensures key !in Fields(members)
  {
    if members != [] { FieldsHave(members[1..], key); }
  }

  /** A request without params has the key of the same request with empty params. */
  lemma MissingParamsAreEmpty(members: seq<Member<Json>>, idempotent: set<string>)
    requires forall i :: 0 <= i < |members| ==> members[i].key != "params"
    ensures KeyText(Some(Obj(members)), idempotent) ==
            KeyText(Some(Obj(members + [Member("params", Arr([]))])), idempotent)
  {
    FieldsPush(members, Member("params", Arr([])));
    FieldsHave(members, "params");
    assert "params"[0] != METHOD[0];
  }

  /** Two accepted bodies feed the hasher the same text exactly when they ask the same
      question: equal methods, and params equal as JSON values, whatever the order of
      object keys; missing params ask what an empty list asks. */
  lemma KeyIsTheQuestion(a: Option<Json>, b: Option<Json>, idempotent: set<string>)
    requires PrintableBody(a) && PrintableBody(b)
    ensures KeyText(a, idempotent).Some? <==> Question(a, idempotent).Some?
    ensures KeyText(a, idempotent).Some? && KeyText(b, idempotent).Some? ==>
              (KeyText(a, idempotent) == KeyText(b, idempotent) <==> Question(a, idempotent) == Question(b, idempotent))
  {
    var x, p := KeyParts(a, idempotent);
    var y, q := KeyParts(b, idempotent);
    if KeyText(a, idempotent).Some? && KeyText(b, idempotent).Some? {
      if KeyText(a, idempotent) == KeyText(b, idempotent) { KeyTextIsUnique(x, p, y, q); }
      if Question(a, idempotent) == Question(b, idempotent) { NormalIsUnique(p, q); }
    }
  }
}
