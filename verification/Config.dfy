/**
 * Expanding placeholders and validating the settings (src/config.rs:163-332).
 */
module Config {
  import opened Upstreams

  datatype SettingsError =
    | UnsetEnvVar(name: string)
    | ResidualPlaceholder(upstream: string)
    | EmptyUpstreams
    | EmptyLabel(index: nat)
    | EmptyUrl(upstream: string)
    | DuplicateLabel(upstream: string)
    | DuplicateUrl(first: string, second: string)
    | ZeroHedgeAfter
    | ZeroUpstreamHedgeAfter(upstream: string)
    | InvalidCorsOrigin(origin: string, reason: string)
    | DuplicateCorsOrigin(origin: string)
    | WildcardCorsOriginMixed

  datatype Result<T> = Ok(value: T) | Err(error: SettingsError)

  // Searching text

  predicate OccursAt(pattern: string, s: string, i: nat) {
    i + |pattern| <= |s| && s[i..i + |pattern|] == pattern
  }

  predicate Contains(s: string, pattern: string) {
    exists i: nat :: i <= |s| && OccursAt(pattern, s, i)
  }

  /** The first occurrence. */
  function IndexOf(s: string, pattern: string, from: nat := 0): (r: Option<nat>)
    requires from <= |s|
    ensures r.Some? ==> from <= r.value && OccursAt(pattern, s, r.value)
    ensures forall i: nat :: from <= i && OccursAt(pattern, s, i) ==> r.Some? && r.value <= i
    decreases |s| - from
  {
    if OccursAt(pattern, s, from) then Some(from)
    else if from == |s| then None
    else IndexOf(s, pattern, from + 1)
  }

  /** The characters with the Unicode White_Space property. */
  predicate IsSpace(c: char) {
    var code := c as int;
    || 0x9 <= code <= 0xD || code == 0x20 || code == 0x85 || code == 0xA0 || code == 0x1680
    || 0x2000 <= code <= 0x200A || code == 0x2028 || code == 0x2029 || code == 0x202F || code == 0x205F
    || code == 0x3000
  }

  predicate IsBlank(s: string) {
    forall i :: 0 <= i < |s| ==> IsSpace(s[i])
  }

  /** Among the ASCII characters the blank ones are the tab to the carriage return and the
      space; text with any other is not blank, and no text at all is. */
  lemma BlankMeans(s: string)
    requires forall i :: 0 <= i < |s| ==> s[i] as int < 128
    ensures IsBlank(s) <==> forall i :: 0 <= i < |s| ==> s[i] == ' ' || 9 <= s[i] as int <= 13
    ensures IsBlank("")
  {
  }

  // Templates

  const OPEN := "${"
  const CLOSE := "}"

  /** Text up to a placeholder, and the name in it. */
  datatype Piece = Piece(before: string, name: string)
  {
    predicate Valid() {
      !Contains(before, OPEN) && !Contains(name, CLOSE)
    }

    function Text(): string {
      before + OPEN + name + CLOSE
    }

    function Filled(value: string): string {
      before + value
    }
  }

  datatype Template = Template(pieces: seq<Piece>, tail: string)
  {
    /** No placeholder is left in the tail: the first opening, if any, is never closed. */
    ghost predicate Valid() {
      && (forall p :: p in pieces ==> p.Valid())
      && forall i: nat :: OccursAt(OPEN, tail, i) ==> !Contains(tail[i + 2..], CLOSE)
    }

    function Text(): string
      decreases pieces
    {
      if pieces == [] then tail else pieces[0].Text() + Template(pieces[1..], tail).Text()
    }
  }

  datatype Found = Found(piece: Piece, rest: string)

  /** The first placeholder that is closed. */
  function Next(raw: string): (r: Option<Found>)
    ensures r.Some? ==> |r.value.rest| < |raw|
  {
    var start := IndexOf(raw, OPEN);
    if start.None? then None
    else
      var body := raw[start.value + 2..];
      var end := IndexOf(body, CLOSE);
      if end.None? then None
      else Some(Found(Piece(raw[..start.value], body[..end.value]), body[end.value + 1..]))
  }

  function Parse(raw: string): Template
    decreases |raw|
  {
    var next := Next(raw);
    if next.None? then Template([], raw)
    else
      var rest := Parse(next.value.rest);
      Template([next.value.piece] + rest.pieces, rest.tail)
  }

  lemma PrefixIsClear(s: string, pattern: string, n: nat)
    requires pattern != [] && n <= |s|
    requires forall i: nat :: OccursAt(pattern, s, i) ==> n <= i
    ensures !Contains(s[..n], pattern)
  {
    forall i: nat ensures !OccursAt(pattern, s[..n], i) {
      if OccursAt(pattern, s[..n], i) {
        assert s[..n][i..i + |pattern|] == s[i..i + |pattern|];
        assert OccursAt(pattern, s, i);
      }
    }
  }

  lemma IndexSplits(s: string, pattern: string)
    requires pattern != [] && IndexOf(s, pattern).Some?
    ensures var k := IndexOf(s, pattern).value;
            && k + |pattern| <= |s| && s == s[..k] + pattern + s[k + |pattern|..]
            && !Contains(s[..k], pattern)
  {
    hide IndexOf, Contains;
    var k := IndexOf(s, pattern).value;
    PrefixIsClear(s, pattern, k);
    assert s == s[..k] + s[k..k + |pattern|] + s[k + |pattern|..];
  }

  lemma NextIsFaithful(raw: string)
    ensures Next(raw).Some? ==>
            && Next(raw).value.piece.Valid()
            && raw == Next(raw).value.piece.Text() + Next(raw).value.rest
    ensures Next(raw).None? ==> Template([], raw).Valid()
  {
    hide Contains, OccursAt, IndexOf;
    var start := IndexOf(raw, OPEN);
    if start.Some? {
      IndexSplits(raw, OPEN);
      var before, body := raw[..start.value], raw[start.value + 2..];
      var end := IndexOf(body, CLOSE);
      if end.Some? {
        IndexSplits(body, CLOSE);
        var name, rest := body[..end.value], body[end.value + 1..];
        assert before + OPEN + (name + CLOSE + rest) == (before + OPEN + name + CLOSE) + rest;
      } else {
        OnlyTail(raw, start.value);
      }
    }
  }

  /** Reading a text into a template loses nothing. */
  lemma {:induction false} ParseIsFaithful(raw: string)
    ensures Parse(raw).Valid() && Parse(raw).Text() == raw
    decreases |raw|
  {
    hide Next, Contains, OccursAt;
    NextIsFaithful(raw);
    if Next(raw).Some? {
      var p, rest := Next(raw).value.piece, Next(raw).value.rest;
      ParseIsFaithful(rest);
      var t := Parse(raw);
      assert t.pieces[0] == p && t.pieces[1..] == Parse(rest).pieces;
    }
  }

  lemma OccursLater(s: string, pattern: string, m: nat, n: nat, j: nat)
    requires m <= n <= |s|
    ensures OccursAt(pattern, s[n..], j) <==> OccursAt(pattern, s[m..], n - m + j)
  {
  }

  lemma OnlyTail(raw: string, start: nat)
    requires IndexOf(raw, OPEN) == Some(start) && IndexOf(raw[start + 2..], CLOSE).None?
    ensures Template([], raw).Valid()
  {
    forall i: nat | OccursAt(OPEN, raw, i) ensures !Contains(raw[i + 2..], CLOSE) {
      var later, body := raw[i + 2..], raw[start + 2..];
      forall j: nat ensures !OccursAt(CLOSE, later, j) {
        OccursLater(raw, CLOSE, start + 2, i + 2, j);
        assert !OccursAt(CLOSE, body, i - start + j);
      }
    }
  }

  lemma FirstAfter(before: string, pattern: string, rest: string)
    requires pattern == OPEN || pattern == CLOSE
    requires !Contains(before, pattern)
    ensures IndexOf(before + pattern + rest, pattern) == Some(|before|)
  {
    var s := before + pattern + rest;
    assert OccursAt(pattern, s, |before|);
    forall i: nat | i < |before| ensures !OccursAt(pattern, s, i) {
      if OccursAt(pattern, s, i) {
        assert s[i] == pattern[0] && s[i + |pattern| - 1] == pattern[|pattern| - 1];
        if i + |pattern| <= |before| {
          assert before[i..i + |pattern|] == s[i..i + |pattern|];
          assert OccursAt(pattern, before, i);
        }
      }
    }
  }

  lemma NextOf(p: Piece, rest: string)
    requires p.Valid()
    ensures Next(p.Text() + rest) == Some(Found(p, rest))
  {
    hide Contains, OccursAt, IndexOf;
    var raw, body := p.Text() + rest, p.name + CLOSE + rest;
    assert raw == p.before + OPEN + body;
    FirstAfter(p.before, OPEN, body);
    FirstAfter(p.name, CLOSE, rest);
    assert raw[|p.before| + 2..] == body && raw[..|p.before|] == p.before;
    assert body[|p.name| + 1..] == rest && body[..|p.name|] == p.name;
  }

  lemma NoNext(tail: string)
    requires Template([], tail).Valid()
    ensures Next(tail).None?
  {
    var start := IndexOf(tail, OPEN);
    if start.Some? {
      assert !Contains(tail[start.value + 2..], CLOSE);
    }
  }

  /** And there is only one template to read a text into. */
  lemma {:induction false} ParseIsUnique(t: Template)
    requires t.Valid()
    ensures Parse(t.Text()) == t
    decreases t.pieces
  {
    hide Next, Contains, OccursAt;
    if t.pieces == [] {
      NoNext(t.tail);
    } else {
      var p, rest := t.pieces[0], Template(t.pieces[1..], t.tail);
      assert t.pieces == [p] + rest.pieces;
      ParseIsUnique(rest);
      NextOf(p, rest.Text());
    }
  }

  // Filling a template

  type Environment = string -> Option<string>

  /** What stands for a placeholder: the value of the variable, or the placeholder itself if
      the name is blank.  An empty value is as good as none. */
  function ValueOf(name: string, env: Environment): Option<string> {
    if IsBlank(name) then Some(OPEN + name + CLOSE)
    else if env(name).Some? && env(name).value != "" then env(name)
    else None
  }

  predicate Fillable(t: Template, env: Environment) {
    forall p :: p in t.pieces ==> ValueOf(p.name, env).Some?
  }

  /** Every placeholder replaced, with the values standing as they are. */
  function Filled(t: Template, env: Environment): string
    requires Fillable(t, env)
    decreases t.pieces
  {
    if t.pieces == [] then t.tail
    else t.pieces[0].before + ValueOf(t.pieces[0].name, env).value + Filled(Template(t.pieces[1..], t.tail), env)
  }

  ghost predicate FirstMissing(t: Template, env: Environment, name: string) {
    exists i :: 0 <= i < |t.pieces| && t.pieces[i].name == name && ValueOf(name, env).None?
                && forall j :: 0 <= j < i ==> ValueOf(t.pieces[j].name, env).Some?
  }

  lemma FillStep(t: Template, env: Environment)
    requires t.pieces != []
    ensures var p, rest := t.pieces[0], Template(t.pieces[1..], t.tail);
            && (ValueOf(p.name, env).Some? ==>
                && (Fillable(t, env) <==> Fillable(rest, env))
                && (Fillable(t, env) ==> Filled(t, env) == p.before + ValueOf(p.name, env).value + Filled(rest, env))
                && (forall name :: FirstMissing(rest, env, name) ==> FirstMissing(t, env, name)))
            && (ValueOf(p.name, env).None? ==> FirstMissing(t, env, p.name))
  {
    var p, rest := t.pieces[0], Template(t.pieces[1..], t.tail);
    assert t.pieces == [p] + rest.pieces;
    forall name | ValueOf(p.name, env).Some? && FirstMissing(rest, env, name) ensures FirstMissing(t, env, name) {
      var i :| 0 <= i < |rest.pieces| && rest.pieces[i].name == name && ValueOf(name, env).None?
               && forall j :: 0 <= j < i ==> ValueOf(rest.pieces[j].name, env).Some?;
      assert t.pieces[i + 1].name == name;
      forall j | 0 <= j < i + 1 ensures ValueOf(t.pieces[j].name, env).Some? {
        if j > 0 { assert t.pieces[j] == rest.pieces[j - 1]; }
      }
    }
  }

  lemma ParseStep(raw: string, p: Piece, rest: string, env: Environment)
    requires Next(raw) == Some(Found(p, rest))
    ensures var t, left, value := Parse(raw), Parse(rest), ValueOf(p.name, env);
            && (value.Some? ==>
                && (Fillable(t, env) <==> Fillable(left, env))
                && (Fillable(t, env) ==> Filled(t, env) == p.before + value.value + Filled(left, env))
                && (forall name :: FirstMissing(left, env, name) ==> FirstMissing(t, env, name)))
            && (value.None? ==> !Fillable(t, env) && FirstMissing(t, env, p.name))
  {
    hide Next, FirstMissing, ValueOf;
    var t := Parse(raw);
    assert t.pieces[0] == p && Template(t.pieces[1..], t.tail) == Parse(rest);
    FillStep(t, env);
    assert p in t.pieces;
  }

  /** With `out` written, what the whole text comes to is what `rest` comes to. */
  ghost predicate Remains(raw: string, env: Environment, out: string, rest: string) {
    var all, left := Parse(raw), Parse(rest);
    && (Fillable(all, env) <==> Fillable(left, env))
    && (Fillable(all, env) ==> Filled(all, env) == out + Filled(left, env))
    && (forall name :: FirstMissing(left, env, name) ==> FirstMissing(all, env, name))
  }

  lemma StartingRemains(raw: string, env: Environment)
    ensures Remains(raw, env, "", raw)
  {
    hide Parse, Fillable, Filled, FirstMissing;
    if Fillable(Parse(raw), env) { assert Filled(Parse(raw), env) == "" + Filled(Parse(raw), env); }
  }

  lemma RemainsStep(raw: string, env: Environment, out: string, rest: string, p: Piece, left: string)
    requires Remains(raw, env, out, rest) && Next(rest) == Some(Found(p, left))
    ensures var value := ValueOf(p.name, env);
            && (value.Some? ==> Remains(raw, env, out + p.before + value.value, left))
            && (value.None? ==> !Fillable(Parse(raw), env) && FirstMissing(Parse(raw), env, p.name))
  {
    hide Parse, Next, Fillable, Filled, FirstMissing, ValueOf;
    ParseStep(rest, p, left, env);
    var value := ValueOf(p.name, env);
    if value.Some? && Fillable(Parse(raw), env) {
      var tail := Filled(Parse(left), env);
      assert out + (p.before + value.value + tail) == (out + p.before + value.value) + tail;
    }
  }

  lemma NothingRemains(raw: string, env: Environment, out: string, rest: string)
    requires Remains(raw, env, out, rest) && Next(rest).None?
    ensures Fillable(Parse(raw), env) && Filled(Parse(raw), env) == out + rest
  {
    assert Parse(rest) == Template([], rest);
  }

  /** One pass over the text: the template is filled, or the first variable without a value
      is named.  No value is ever scanned again. */
  method ExpandStr(raw: string, env: Environment) returns (r: Result<string>)
    ensures r.Ok? <==> Fillable(Parse(raw), env)
    ensures r.Ok? ==> r.value == Filled(Parse(raw), env)
    ensures r.Err? ==> r.error.UnsetEnvVar? && FirstMissing(Parse(raw), env, r.error.name)
  {
    hide Parse, Fillable, Filled, FirstMissing, Contains, OccursAt;
    var out, rest := "", raw;
    StartingRemains(raw, env);
    hide Remains;
    var start := IndexOf(rest, OPEN);
    while start.Some?
      invariant start == IndexOf(rest, OPEN)
      invariant Remains(raw, env, out, rest)
      decreases |rest|
    {
      IndexSplits(rest, OPEN);
      var before, marker := rest[..start.value], rest[start.value..];
      var body := marker[2..];
      assert body == rest[start.value + 2..];
      var end := IndexOf(body, CLOSE);
      if end.None? { break; }
      IndexSplits(body, CLOSE);
      var name := body[..end.value];
      RemainsStep(raw, env, out, rest, Piece(before, name), body[end.value + 1..]);
      out := out + before;
      if IsBlank(name) {
        assert marker[..end.value + 3] == OPEN + name + CLOSE;
        out := out + marker[..end.value + 3];
      } else {
        var value := env(name);
        if value.None? || value.value == "" {
          return Err(UnsetEnvVar(name));
        }
        out := out + value.value;
      }
      rest := body[end.value + 1..];
      start := IndexOf(rest, OPEN);
    }
    NothingRemains(raw, env, out, rest);
    out := out + rest;
    return Ok(out);
  }

  // What filling comes to, written out

  function Spliced(pieces: seq<Piece>, values: seq<string>, tail: string): string
    requires |values| == |pieces|
  {
    if pieces == [] then tail else pieces[0].before + values[0] + Spliced(pieces[1..], values[1..], tail)
  }

  /** The text of a template has `${name}` at each of its placeholders. */
  lemma {:induction false} TextIsSpliced(t: Template, marks: seq<string>)
    requires |marks| == |t.pieces| && forall i :: 0 <= i < |marks| ==> marks[i] == "${" + t.pieces[i].name + "}"
    ensures t.Text() == Spliced(t.pieces, marks, t.tail)
    decreases t.pieces
  {
    if t.pieces != [] {
      TextIsSpliced(Template(t.pieces[1..], t.tail), marks[1..]);
      var p := t.pieces[0];
      assert p.Text() == p.before + marks[0];
    }
  }

  /** A template can be filled exactly when every name is blank or has a value that is not
      empty; then each placeholder gives way to its value, a blank one to itself. */
  lemma {:induction false} FilledMeans(t: Template, env: Environment, values: seq<string>)
    requires |values| == |t.pieces|
    requires forall i :: 0 <= i < |values| ==>
               var name := t.pieces[i].name;
               values[i] ==
               if IsBlank(name) then "${" + name + "}" else if env(name).Some? then env(name).value else ""
    ensures Fillable(t, env) <==>
            forall p :: p in t.pieces ==> IsBlank(p.name) || (env(p.name).Some? && env(p.name).value != "")
    ensures Fillable(t, env) ==> Filled(t, env) == Spliced(t.pieces, values, t.tail)
    decreases t.pieces
  {
    if t.pieces != [] {
      var rest := Template(t.pieces[1..], t.tail);
      assert t.pieces == [t.pieces[0]] + rest.pieces;
      FilledMeans(rest, env, values[1..]);
    }
  }

  lemma ContainsWithin(a: string, b: string, c: string, pattern: string)
    ensures Contains(b, pattern) ==> Contains(a + b + c, pattern)
  {
    var s := a + b + c;
    forall i: nat | OccursAt(pattern, b, i) ensures OccursAt(pattern, s, |a| + i) {
      assert s[|a| + i..|a| + i + |pattern|] == b[i..i + |pattern|];
    }
  }

  /** Text that holds no opening any more, which is what validation asks for, was expanded
      in full: each placeholder had a name with a value, and none was left open. */
  lemma {:induction false} CleanMeansExpanded(t: Template, env: Environment)
    requires Fillable(t, env) && !Contains(Filled(t, env), OPEN)
    ensures forall p :: p in t.pieces ==> !IsBlank(p.name) && env(p.name).Some?
    ensures !Contains(t.tail, OPEN)
    decreases t.pieces
  {
    if t.pieces != [] {
      var p, rest := t.pieces[0], Template(t.pieces[1..], t.tail);
      FillStep(t, env);
      var value, after := ValueOf(p.name, env).value, Filled(rest, env);
      assert t.pieces == [p] + rest.pieces;
      assert Filled(t, env) == p.before + value + after == p.before + value + after + "";
      ContainsWithin(p.before + value, after, "", OPEN);
      ContainsWithin(p.before, value, after, OPEN);
      assert IsBlank(p.name) ==> OccursAt(OPEN, value, 0);
      CleanMeansExpanded(rest, env);
    }
  }

  // Validation

  datatype UpstreamSettings = UpstreamSettings(name: string, url: string, hedgeAfterMillis: Option<nat>)

  const WILDCARD_ORIGIN := "*"

  /** Whether an origin is acceptable, and if not, why.  Left to the library that parses it. */
  type OriginCheck = string -> Option<string>

  /** The name of the last upstream with the given url. */
  function Owner(upstreams: seq<UpstreamSettings>, url: string): (r: Option<string>)
    ensures r.None? <==> forall u :: u in upstreams ==> u.url != url
  {
    if upstreams == [] then None
    else
      var n := |upstreams| - 1;
      if upstreams[n].url == url then Some(upstreams[n].name) else Owner(upstreams[..n], url)
  }

  function Fault(upstreams: seq<UpstreamSettings>, i: nat): Option<SettingsError>
    requires i < |upstreams|
  {
    var u, earlier := upstreams[i], upstreams[..i];
    if IsBlank(u.name) then Some(EmptyLabel(i))
    else if IsBlank(u.url) then Some(EmptyUrl(u.name))
    else if Contains(u.name, OPEN) || Contains(u.url, OPEN) then Some(ResidualPlaceholder(u.name))
    else if exists e :: e in earlier && e.name == u.name then Some(DuplicateLabel(u.name))
    else if Owner(earlier, u.url).Some? then Some(DuplicateUrl(Owner(earlier, u.url).value, u.name))
    else if u.hedgeAfterMillis == Some(0) then Some(ZeroUpstreamHedgeAfter(u.name))
    else None
  }

  function FirstFault(upstreams: seq<UpstreamSettings>, i: nat): (r: Option<SettingsError>)
    requires i <= |upstreams|
    ensures r.None? <==> forall k :: i <= k < |upstreams| ==> Fault(upstreams, k).None?
    decreases |upstreams| - i
  {
    if i == |upstreams| then None
    else if Fault(upstreams, i).Some? then Fault(upstreams, i)
    else FirstFault(upstreams, i + 1)
  }

  function OriginFault(origins: seq<string>, i: nat, check: OriginCheck): Option<SettingsError>
    requires i < |origins|
  {
    if check(origins[i]).Some? then Some(InvalidCorsOrigin(origins[i], check(origins[i]).value))
    else if origins[i] in origins[..i] then Some(DuplicateCorsOrigin(origins[i]))
    else None
  }

  function FirstOriginFault(origins: seq<string>, i: nat, check: OriginCheck): (r: Option<SettingsError>)
    requires i <= |origins|
    ensures r.None? <==> forall k :: i <= k < |origins| ==> OriginFault(origins, k, check).None?
    decreases |origins| - i
  {
    if i == |origins| then None
    else if OriginFault(origins, i, check).Some? then OriginFault(origins, i, check)
    else FirstOriginFault(origins, i + 1, check)
  }

  function CorsVerdict(origins: seq<string>, check: OriginCheck): Option<SettingsError> {
    if WILDCARD_ORIGIN in origins then
      if |origins| == 1 then None else Some(WildcardCorsOriginMixed)
    else FirstOriginFault(origins, 0, check)
  }

  method ValidateCors(origins: seq<string>, check: OriginCheck) returns (r: Option<SettingsError>)
    ensures r == CorsVerdict(origins, check)
  {
    if WILDCARD_ORIGIN in origins {
      return if |origins| == 1 then None else Some(WildcardCorsOriginMixed);
    }
    var seen: set<string> := {};
    for i := 0 to |origins|
      invariant seen == set o | o in origins[..i]
      invariant FirstOriginFault(origins, 0, check) == FirstOriginFault(origins, i, check)
    {
      var origin := origins[i];
      var reason := check(origin);
      if reason.Some? {
        return Some(InvalidCorsOrigin(origin, reason.value));
      }
      if origin in seen {
        return Some(DuplicateCorsOrigin(origin));
      }
      seen := seen + {origin};
      assert origins[..i + 1] == origins[..i] + [origin];
    }
    return None;
  }

  function Verdict(upstreams: seq<UpstreamSettings>, hedgeAfterMillis: nat, origins: seq<string>,
      check: OriginCheck): Option<SettingsError> {
    if upstreams == [] then Some(EmptyUpstreams)
    else if hedgeAfterMillis == 0 then Some(ZeroHedgeAfter)
    else if CorsVerdict(origins, check).Some? then CorsVerdict(origins, check)
    else FirstFault(upstreams, 0)
  }

  /** The first thing wrong with the settings, if anything is. */
  method ValidateSettings(upstreams: seq<UpstreamSettings>, hedgeAfterMillis: nat, origins: seq<string>,
      check: OriginCheck)
    returns (r: Option<SettingsError>)
    ensures r == Verdict(upstreams, hedgeAfterMillis, origins, check)
  {
    if upstreams == [] {
      return Some(EmptyUpstreams);
    }
    if hedgeAfterMillis == 0 {
      return Some(ZeroHedgeAfter);
    }
    var cors := ValidateCors(origins, check);
    if cors.Some? {
      return cors;
    }
    var labels: set<string> := {};
    var urls: map<string, string> := map[];
    for i := 0 to |upstreams|
      invariant forall name :: name in labels <==> exists e :: e in upstreams[..i] && e.name == name
      invariant forall url :: (url in urls <==> Owner(upstreams[..i], url).Some?)
                              && (url in urls ==> Owner(upstreams[..i], url) == Some(urls[url]))
      invariant FirstFault(upstreams, 0) == FirstFault(upstreams, i)
    {
      var u := upstreams[i];
      if IsBlank(u.name) {
        return Some(EmptyLabel(i));
      }
      if IsBlank(u.url) {
        return Some(EmptyUrl(u.name));
      }
      var residual := IndexOf(u.name, OPEN).Some? || IndexOf(u.url, OPEN).Some?;
      if residual {
        return Some(ResidualPlaceholder(u.name));
      }
      if u.name in labels {
        return Some(DuplicateLabel(u.name));
      }
      labels := labels + {u.name};
      if u.url in urls {
        return Some(DuplicateUrl(urls[u.url], u.name));
      }
      urls := urls[u.url := u.name];
      if u.hedgeAfterMillis == Some(0) {
        return Some(ZeroUpstreamHedgeAfter(u.name));
      }
      assert upstreams[..i + 1] == upstreams[..i] + [u];
      assert upstreams[..i + 1][..i] == upstreams[..i];
    }
    return None;
  }

  ghost predicate Usable(u: UpstreamSettings) {
    Expanded(u) && u.hedgeAfterMillis != Some(0)
  }

  ghost predicate Apart(a: UpstreamSettings, b: UpstreamSettings) {
    a.name != b.name && a.url != b.url
  }

  /** Origins pass exactly when the wildcard stands alone, or is absent and each origin is
      acceptable and given once. */
  lemma CorsMeans(origins: seq<string>, check: OriginCheck)
    ensures CorsVerdict(origins, check).None? <==>
            origins == ["*"]
            || ("*" !in origins && Distinct(origins) && forall o :: o in origins ==> check(o).None?)
    ensures CorsVerdict(origins, check).Some? ==> CorsAccuses(CorsVerdict(origins, check).value, origins, check)
  {
    if WILDCARD_ORIGIN in origins {
      if |origins| == 1 { assert origins == [origins[0]]; }
    } else {
      forall k | 0 <= k < |origins|
        ensures OriginFault(origins, k, check).None? <==>
                check(origins[k]).None? && forall i :: 0 <= i < k ==> origins[i] != origins[k]
      {
        assert forall i :: 0 <= i < k ==> origins[..k][i] == origins[i];
      }
      if CorsVerdict(origins, check).Some? {
        var k := OriginAtFault(origins, 0, check);
        if check(origins[k]).None? {
          var i :| 0 <= i < k && origins[..k][i] == origins[k];
          assert origins[i] == origins[k];
        }
      }
    }
  }

  lemma OriginAtFault(origins: seq<string>, i: nat, check: OriginCheck) returns (k: nat)
    requires i <= |origins| && FirstOriginFault(origins, i, check).Some?
    ensures i <= k < |origins| && FirstOriginFault(origins, i, check) == OriginFault(origins, k, check)
    decreases |origins| - i
  {
    k := i;
    if OriginFault(origins, i, check).None? { k := OriginAtFault(origins, i + 1, check); }
  }

  ghost predicate CorsAccuses(e: SettingsError, origins: seq<string>, check: OriginCheck) {
    match e
    case WildcardCorsOriginMixed => "*" in origins && |origins| > 1
    case InvalidCorsOrigin(o, reason) => o in origins && check(o) == Some(reason)
    case DuplicateCorsOrigin(o) => exists i, j :: 0 <= i < j < |origins| && origins[i] == origins[j] == o
    case _ => false
  }

  ghost predicate Expanded(u: UpstreamSettings) {
    !IsBlank(u.name) && !IsBlank(u.url) && !Contains(u.name, "${") && !Contains(u.url, "${")
  }

  /** What an error says of the upstream at `k`. */
  ghost predicate Accuses(e: SettingsError, upstreams: seq<UpstreamSettings>, k: nat)
    requires k < |upstreams|
  {
    var u := upstreams[k];
    match e
    case EmptyLabel(index) => index == k && IsBlank(u.name)
    case EmptyUrl(name) => name == u.name && !IsBlank(u.name) && IsBlank(u.url)
    case ResidualPlaceholder(name) =>
      name == u.name && !IsBlank(u.name) && !IsBlank(u.url) && (Contains(u.name, "${") || Contains(u.url, "${"))
    case DuplicateLabel(name) =>
      name == u.name && Expanded(u) && exists i :: 0 <= i < k && upstreams[i].name == name
    case DuplicateUrl(first, second) =>
      && second == u.name && Expanded(u) && (forall i :: 0 <= i < k ==> upstreams[i].name != u.name)
      && exists i :: 0 <= i < k && upstreams[i].name == first && upstreams[i].url == u.url
    case ZeroUpstreamHedgeAfter(name) =>
      && name == u.name && Expanded(u) && (forall i :: 0 <= i < k ==> Apart(upstreams[i], u))
      && u.hedgeAfterMillis == Some(0)
    case _ => false
  }

  lemma {:induction false} OwnerIs(upstreams: seq<UpstreamSettings>, url: string)
    ensures Owner(upstreams, url).Some? ==>
              exists i :: 0 <= i < |upstreams|
                && upstreams[i].name == Owner(upstreams, url).value && upstreams[i].url == url
  {
    if upstreams != [] && upstreams[|upstreams| - 1].url != url {
      var init := upstreams[..|upstreams| - 1];
      OwnerIs(init, url);
      if Owner(init, url).Some? {
        var i :| 0 <= i < |init| && init[i].name == Owner(init, url).value && init[i].url == url;
        assert upstreams[i] == init[i];
      }
    }
  }

  lemma FaultAccuses(upstreams: seq<UpstreamSettings>, k: nat)
    requires k < |upstreams| && Fault(upstreams, k).Some?
    ensures Accuses(Fault(upstreams, k).value, upstreams, k)
  {
    var earlier := upstreams[..k];
    assert forall i :: 0 <= i < k ==> earlier[i] == upstreams[i];
    OwnerIs(earlier, upstreams[k].url);
  }

  lemma UpstreamAtFault(upstreams: seq<UpstreamSettings>, i: nat) returns (k: nat)
    requires i <= |upstreams| && FirstFault(upstreams, i).Some?
    ensures i <= k < |upstreams| && FirstFault(upstreams, i) == Fault(upstreams, k) && Fault(upstreams, k).Some?
    ensures forall j :: i <= j < k ==> Fault(upstreams, j).None?
    decreases |upstreams| - i
  {
    k := i;
    if Fault(upstreams, i).None? { k := UpstreamAtFault(upstreams, i + 1); }
  }

  /** What the verdict says is so: of the settings as a whole, of an origin, or of an
      upstream, and then those before it are usable and apart. */
  lemma VerdictIsSo(upstreams: seq<UpstreamSettings>, hedgeAfterMillis: nat, origins: seq<string>, check: OriginCheck)
    requires Verdict(upstreams, hedgeAfterMillis, origins, check).Some?
    ensures var e := Verdict(upstreams, hedgeAfterMillis, origins, check).value;
            || (e == EmptyUpstreams && upstreams == [])
            || (e == ZeroHedgeAfter && upstreams != [] && hedgeAfterMillis == 0)
            || (CorsAccuses(e, origins, check) && upstreams != [] && hedgeAfterMillis > 0)
            || exists k: nat :: k < |upstreams| && Accuses(e, upstreams, k)
                 && (forall i :: 0 <= i < k ==> Usable(upstreams[i]))
                 && (forall i, j :: 0 <= i < j < k ==> Apart(upstreams[i], upstreams[j]))
  {
    CorsMeans(origins, check);
    if upstreams != [] && hedgeAfterMillis > 0 && CorsVerdict(origins, check).None? {
      var k := UpstreamAtFault(upstreams, 0);
      FaultAccuses(upstreams, k);
      forall i | 0 <= i < k
        ensures Usable(upstreams[i]) && forall h :: 0 <= h < i ==> Apart(upstreams[h], upstreams[i])
      {
        FaultMeans(upstreams, i);
      }
      hide Accuses, Usable, Apart;
    }
  }

  /** Settings pass exactly when there are upstreams, no hedge delay is zero, the origins
      pass, every upstream is usable, and no two share a label or a url. */
  lemma AcceptedMeans(upstreams: seq<UpstreamSettings>, hedgeAfterMillis: nat, origins: seq<string>, check: OriginCheck)
    ensures Verdict(upstreams, hedgeAfterMillis, origins, check).None? <==>
            && upstreams != [] && hedgeAfterMillis > 0
            && (origins == ["*"]
                || ("*" !in origins && Distinct(origins) && forall o :: o in origins ==> check(o).None?))
            && (forall i :: 0 <= i < |upstreams| ==> Usable(upstreams[i]))
            && (forall i, j :: 0 <= i < j < |upstreams| ==> Apart(upstreams[i], upstreams[j]))
  {
    CorsMeans(origins, check);
    forall k | 0 <= k < |upstreams|
      ensures Fault(upstreams, k).None? <==>
              Usable(upstreams[k]) && forall i :: 0 <= i < k ==> Apart(upstreams[i], upstreams[k])
    {
      FaultMeans(upstreams, k);
    }
  }

  lemma FaultMeans(upstreams: seq<UpstreamSettings>, k: nat)
    requires k < |upstreams|
    ensures Fault(upstreams, k).None? <==>
            Usable(upstreams[k]) && forall i :: 0 <= i < k ==> Apart(upstreams[i], upstreams[k])
  {
    var earlier := upstreams[..k];
    assert forall i :: 0 <= i < k ==> earlier[i] == upstreams[i] && upstreams[i] in earlier;
  }
}
