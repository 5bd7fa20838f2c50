/** `{key}` templates: the keys a template refers to, and rendering it with a map of values. */
module Templates {
  import opened Sequences

  datatype Problem = Unclosed | EmptyKey | UnknownKey(name: string)

  datatype Result<+T> = Ok(value: T) | Err(problem: Problem)

  datatype Segment = Literal(text: string) | Key(name: string)

  type Vars = map<string, string>

  /** What a template starts with: only text, a broken interpolation, or text and then a key. */
  datatype Start = Plain | Broken(problem: Problem) | Interpolation(text: string, key: string, rest: string)

  lemma CutTwice(text: string, key: string, rest: string)
    ensures text + "{" + (key + "}" + rest) == text + "{" + key + "}" + rest
  {
  }

  function Next(s: string): (r: Start)
    ensures r.Plain? ==> '{' !in s
    ensures r.Broken? ==> !r.problem.UnknownKey?
    ensures r.Interpolation? ==>
      s == r.text + "{" + r.key + "}" + r.rest && '{' !in r.text && '}' !in r.key && r.key != ""
  {
    var start := IndexOf(s, '{');
    if start < 0 then Plain
    else
      var tail := s[start + 1..];
      var end := IndexOf(tail, '}');
      if end < 0 then Broken(Unclosed)
      else if end == 0 then Broken(EmptyKey)
      else
        CutAtFirst(s, '{');
        CutAtFirst(tail, '}');
        CutTwice(s[..start], tail[..end], tail[end + 1..]);
        Interpolation(s[..start], tail[..end], tail[end + 1..])
  }

  /** The segments `done`, followed by those of `rest` if it has any. */
  function Then(done: seq<Segment>, rest: Result<seq<Segment>>): Result<seq<Segment>> {
    match rest case Err(e) => Err(e) case Ok(segments) => Ok(done + segments)
  }

  function Parse(s: string): Result<seq<Segment>>
    decreases |s|
  {
    match Next(s)
    case Plain => Ok([Literal(s)])
    case Broken(e) => Err(e)
    case Interpolation(text, key, rest) => Then([Literal(text), Key(key)], Parse(rest))
  }

  function KeysOf(segments: seq<Segment>): (keys: seq<string>)
    ensures forall k :: k in keys <==> Key(k) in segments
  {
    if segments == [] then [] else (if segments[0].Key? then [segments[0].name] else []) + KeysOf(segments[1..])
  }

  function PrintOne(segment: Segment): string {
    match segment case Literal(t) => t case Key(k) => "{" + k + "}"
  }

  function Print(segments: seq<Segment>): string {
    if segments == [] then "" else PrintOne(segments[0]) + Print(segments[1..])
  }

  ghost predicate AllBound(segments: seq<Segment>, keys: set<string>) {
    forall k :: Key(k) in segments ==> k in keys
  }

  /** Every key replaced by its value; values are not looked at again. */
  function Substitute(segments: seq<Segment>, vars: Vars): string
    requires AllBound(segments, vars.Keys)
  {
    if segments == [] then ""
    else
      assert segments[0] in segments && forall x :: x in segments[1..] ==> x in segments;
      (match segments[0] case Literal(t) => t case Key(k) => vars[k]) + Substitute(segments[1..], vars)
  }

  /** `s` is well formed and all its keys are bound. */
  ghost predicate Bound(s: string, keys: set<string>) {
    Parse(s).Ok? && AllBound(Parse(s).value, keys)
  }

  /** The text of `s` as it stands, with the value of each key in its place. */
  ghost predicate RenderedTo(s: string, vars: Vars, out: string) {
    Bound(s, vars.Keys) && out == Substitute(Parse(s).value, vars)
  }

  // ---- The template engine's loops ----

  lemma {:induction false} KeysOfConcat(a: seq<Segment>, b: seq<Segment>)
    ensures KeysOf(a + b) == KeysOf(a) + KeysOf(b)
  {
    if a == [] {
      assert a + b == b;
    } else {
      assert (a + b)[1..] == a[1..] + b;
      KeysOfConcat(a[1..], b);
    }
  }

  lemma {:induction false} SubstituteConcat(a: seq<Segment>, b: seq<Segment>, vars: Vars)
    requires AllBound(a, vars.Keys) && AllBound(b, vars.Keys)
    ensures AllBound(a + b, vars.Keys) && Substitute(a + b, vars) == Substitute(a, vars) + Substitute(b, vars)
  {
    if a == [] {
      assert a + b == b;
    } else {
      BoundConcat(a[..1], a[1..], vars.Keys);
      BoundConcat(a, b, vars.Keys);
      assert a[..1] + a[1..] == a;
      SubstituteConcat(a[1..], b, vars);
      SubstituteFirst(a, b, vars);
    }
  }

  lemma BoundConcat(a: seq<Segment>, b: seq<Segment>, keys: set<string>)
    ensures AllBound(a + b, keys) <==> AllBound(a, keys) && AllBound(b, keys)
  {
    assert forall x :: x in a + b <==> x in a || x in b;
  }

  lemma SubstituteFirst(a: seq<Segment>, b: seq<Segment>, vars: Vars)
    requires a != [] && AllBound(a, vars.Keys) && AllBound(a[1..], vars.Keys) && AllBound(a[1..] + b, vars.Keys)
    requires AllBound(a + b, vars.Keys) && AllBound(b, vars.Keys)
    requires Substitute(a[1..] + b, vars) == Substitute(a[1..], vars) + Substitute(b, vars)
    ensures Substitute(a + b, vars) == Substitute(a, vars) + Substitute(b, vars)
  {
    assert (a + b)[1..] == a[1..] + b && (a + b)[0] == a[0];
    var first := if a[0].Literal? then a[0].text else vars[a[0].name];
    Associative(first, Substitute(a[1..], vars), Substitute(b, vars));
  }

  lemma Associative(a: string, b: string, c: string)
    ensures a + (b + c) == (a + b) + c
  {
  }

  lemma SubstituteMore(done: seq<Segment>, text: string, key: string, vars: Vars)
    requires AllBound(done, vars.Keys) && key in vars
    ensures AllBound(done + [Literal(text), Key(key)], vars.Keys)
    ensures Substitute(done + [Literal(text), Key(key)], vars) == Substitute(done, vars) + (text + vars[key])
  {
    var pair := [Literal(text), Key(key)];
    assert pair[1..] == [Key(key)];
    assert Substitute([Key(key)], vars) == vars[key] + Substitute([], vars);
    SubstituteConcat(done, pair, vars);
  }

  lemma SubstituteEnd(done: seq<Segment>, text: string, vars: Vars)
    requires AllBound(done, vars.Keys)
    ensures AllBound(done + [Literal(text)], vars.Keys)
    ensures Substitute(done + [Literal(text)], vars) == Substitute(done, vars) + text
  {
    SubstituteConcat(done, [Literal(text)], vars);
  }

  lemma KeysMore(done: seq<Segment>, text: string, key: string)
    ensures KeysOf(done + [Literal(text), Key(key)]) == KeysOf(done) + [key]
  {
    KeysOfConcat(done, [Literal(text), Key(key)]);
    assert [Literal(text), Key(key)][1..] == [Key(key)];
    assert KeysOf([Key(key)]) == [key] + KeysOf([]);
  }

  lemma KeysEnd(done: seq<Segment>, text: string)
    ensures KeysOf(done + [Literal(text)]) == KeysOf(done)
  {
    KeysOfConcat(done, [Literal(text)]);
  }

  function KeysIfParsed(r: Result<seq<Segment>>): Result<seq<string>> {
    match r case Err(e) => Err(e) case Ok(segments) => Ok(KeysOf(segments))
  }

  lemma ThenNothing(rest: Result<seq<Segment>>)
    ensures Then([], rest) == rest
  {
    if rest.Ok? { assert [] + rest.value == rest.value; }
  }

  lemma ThenThen(done: seq<Segment>, more: seq<Segment>, rest: Result<seq<Segment>>)
    ensures Then(done, Then(more, rest)) == Then(done + more, rest)
  {
    if rest.Ok? { assert done + (more + rest.value) == done + more + rest.value; }
  }

  method ReferencedKeys(input: string) returns (r: Result<seq<string>>)
    ensures r == KeysIfParsed(Parse(input))
  {
    var keys, rest := [], input;
    ghost var done := [];
    ThenNothing(Parse(input));
    while Next(rest).Interpolation?
      invariant Parse(input) == Then(done, Parse(rest)) && keys == KeysOf(done)
      decreases |rest|
    {
      var next := Next(rest);
      ghost var pair := [Literal(next.text), Key(next.key)];
      KeysMore(done, next.text, next.key);
      ThenThen(done, pair, Parse(next.rest));
      done := done + pair;
      keys := keys + [next.key];
      rest := next.rest;
    }
    if Next(rest).Broken? { return Err(Next(rest).problem); }
    KeysEnd(done, rest);
    r := Ok(keys);
  }

  /** The rendered template, or the first problem met from the left. */
  method Render(input: string, vars: Vars) returns (r: Result<string>)
    ensures r.Ok? <==> Bound(input, vars.Keys)
    ensures r.Ok? ==> RenderedTo(input, vars, r.value)
    ensures r.Err? ==>
      if r.problem.UnknownKey? then r.problem.name !in vars else Parse(input) == Err(r.problem)
  {
    var out, rest := "", input;
    ghost var done := [];
    ThenNothing(Parse(input));
    while Next(rest).Interpolation?
      invariant Parse(input) == Then(done, Parse(rest))
      invariant AllBound(done, vars.Keys) && out == Substitute(done, vars)
      decreases |rest|
    {
      var next := Next(rest);
      ghost var pair := [Literal(next.text), Key(next.key)];
      ThenThen(done, pair, Parse(next.rest));
      if next.key !in vars {
        assert pair[1] == Key(next.key);
        assert Key(next.key) in done + pair;
        return Err(UnknownKey(next.key));
      }
      SubstituteMore(done, next.text, next.key, vars);
      done := done + pair;
      out := out + (next.text + vars[next.key]);
      rest := next.rest;
    }
    if Next(rest).Broken? { return Err(Next(rest).problem); }
    SubstituteEnd(done, rest, vars);
    r := Ok(out + rest);
  }

  method AllIn(keys: seq<string>, allowed: seq<string>) returns (ok: bool)
    ensures ok <==> forall k :: k in keys ==> k in allowed
  {
    for i := 0 to |keys|
      invariant forall j :: 0 <= j < i ==> keys[j] in allowed
    {
      if keys[i] !in allowed { return false; }
    }
    ok := true;
  }

  lemma KeysAllowed(segments: seq<Segment>, allowed: seq<string>)
    ensures (forall k :: k in KeysOf(segments) ==> k in allowed) <==> AllBound(segments, set k | k in allowed)
  {
  }

  /** Whether the template is well formed and refers to nothing outside `allowed`. */
  method ValidateKeys(input: string, allowed: seq<string>) returns (ok: bool)
    ensures ok <==> Bound(input, set k | k in allowed)
  {
    var keys := ReferencedKeys(input);
    if keys.Err? { return false; }
    KeysAllowed(Parse(input).value, allowed);
    ok := AllIn(keys.value, allowed);
  }

  /** Each argument is rendered on its own; one that fails makes the whole command fail. */
  method RenderArgv(command: seq<string>, vars: Vars) returns (r: Result<seq<string>>)
    ensures r.Ok? <==> forall i :: 0 <= i < |command| ==> Bound(command[i], vars.Keys)
    ensures r.Ok? ==> |r.value| == |command|
    ensures r.Ok? ==> forall i :: 0 <= i < |command| ==> RenderedTo(command[i], vars, r.value[i])
  {
    var out := [];
    for i := 0 to |command|
      invariant |out| == i && forall j :: 0 <= j < i ==> RenderedTo(command[j], vars, out[j])
    {
      var arg := Render(command[i], vars);
      if arg.Err? { return Err(arg.problem); }
      out := out + [arg.value];
    }
    r := Ok(out);
  }

  // ---- Parsing and printing are inverse ----

  /** Text and keys alternate, text holds no opening brace, keys are not empty and hold no closing one. */
  ghost predicate Canonical(segments: seq<Segment>) {
    && |segments| >= 1 && segments[0].Literal? && '{' !in segments[0].text
    && (|segments| >= 2 ==>
          && segments[1].Key? && segments[1].name != "" && '}' !in segments[1].name
          && Canonical(segments[2..]))
  }

  lemma PrintPair(text: string, key: string, rest: seq<Segment>)
    ensures Print([Literal(text), Key(key)] + rest) == text + "{" + key + "}" + Print(rest)
  {
    var segments := [Literal(text), Key(key)] + rest;
    assert segments[1..] == [Key(key)] + rest && segments[1..][1..] == rest;
    Regrouped(text, key, Print(rest));
  }

  lemma Regrouped(text: string, key: string, tail: string)
    ensures text + (("{" + key + "}") + tail) == text + "{" + key + "}" + tail
  {
  }

  lemma {:induction false} ParseIsCanonical(s: string)
    requires Parse(s).Ok?
    ensures Print(Parse(s).value) == s && Canonical(Parse(s).value)
    decreases |s|
  {
    var next := Next(s);
    if next.Interpolation? {
      ParseIsCanonical(next.rest);
      PrintPair(next.text, next.key, Parse(next.rest).value);
      assert Parse(s).value[2..] == Parse(next.rest).value;
    } else {
      assert Print([Literal(s)]) == s;
    }
  }

  lemma FindAfter(a: string, c: char, b: string)
    requires c !in a
    ensures IndexOf(a + [c] + b, c) == |a|
  {
    var s := a + [c] + b;
    assert s[|a|] == c;
    forall j | 0 <= j < |a| ensures s[j] != c { assert s[j] == a[j]; }
  }

  lemma NextOf(text: string, key: string, rest: string)
    requires '{' !in text && '}' !in key && key != ""
    ensures Next(text + "{" + key + "}" + rest) == Interpolation(text, key, rest)
  {
    var s, tail := text + "{" + key + "}" + rest, key + "}" + rest;
    assert s == text + "{" + tail;
    FindAfter(text, '{', tail);
    FindAfter(key, '}', rest);
    assert s[|text| + 1..] == tail && s[..|text|] == text;
    assert tail[|key| + 1..] == rest && tail[..|key|] == key;
  }

  lemma {:induction false} PrintParses(segments: seq<Segment>)
    requires Canonical(segments)
    ensures Parse(Print(segments)) == Ok(segments)
    decreases |segments|
  {
    if |segments| == 1 {
      assert segments == [Literal(segments[0].text)];
      assert Print(segments) == segments[0].text;
    } else {
      var text, key, rest := segments[0].text, segments[1].name, segments[2..];
      assert segments == [Literal(text), Key(key)] + rest;
      PrintPair(text, key, rest);
      NextOf(text, key, Print(rest));
      PrintParses(rest);
    }
  }

  /** A template that is nothing but one key. */
  lemma ParseOneKey(key: string)
    requires '}' !in key && key != ""
    ensures Parse("{" + key + "}") == Ok([Literal(""), Key(key), Literal("")])
    ensures forall k :: Key(k) in Parse("{" + key + "}").value <==> k == key
  {
    assert "{" + key + "}" == "" + "{" + key + "}" + "";
    NextOf("", key, "");
    assert Parse("") == Ok([Literal("")]);
    assert [Literal(""), Key(key)] + [Literal("")] == [Literal(""), Key(key), Literal("")];
    assert [Literal(""), Key(key), Literal("")][1] == Key(key);
  }

  // ---- What rendering does to a template, told from its text ----

  /** A text without an opening brace renders as it stands. */
  lemma PlainRenders(s: string, vars: Vars)
    requires '{' !in s
    ensures RenderedTo(s, vars, s)
  {
    assert Next(s).Plain?;
    assert [Literal(s)][1..] == [];
  }

  lemma {:induction false} SubstituteIdentity(segments: seq<Segment>, vars: Vars)
    requires AllBound(segments, vars.Keys) && forall k :: k in vars ==> vars[k] == "{" + k + "}"
    ensures Substitute(segments, vars) == Print(segments)
  {
    if segments != [] {
      assert segments[0] in segments && forall x :: x in segments[1..] ==> x in segments;
      SubstituteIdentity(segments[1..], vars);
      OwnText(segments[0], vars);
    }
  }

  lemma OwnText(segment: Segment, vars: Vars)
    requires segment.Key? ==> segment.name in vars && vars[segment.name] == "{" + segment.name + "}"
    ensures (match segment case Literal(t) => t case Key(k) => vars[k]) == PrintOne(segment)
  {
  }

  /** Giving each key its own text back renders every template as it stands. */
  lemma IdentityRenders(s: string, vars: Vars)
    requires Bound(s, vars.Keys) && forall k :: k in vars ==> vars[k] == "{" + k + "}"
    ensures RenderedTo(s, vars, s)
  {
    SubstituteIdentity(Parse(s).value, vars);
    ParseIsCanonical(s);
  }

  lemma PairText(text: string, key: string, vars: Vars)
    requires key in vars
    ensures AllBound([Literal(text), Key(key)], vars.Keys)
    ensures Substitute([Literal(text), Key(key)], vars) == text + vars[key]
  {
    assert [Literal(text), Key(key)][1..] == [Key(key)];
    assert Substitute([Key(key)], vars) == vars[key] + Substitute([], vars);
  }

  /** Text, key and rest of a template are rendered one after the other. */
  lemma RendersInOrder(text: string, key: string, rest: string, vars: Vars, out: string)
    requires '{' !in text && '}' !in key && key != "" && key in vars && RenderedTo(rest, vars, out)
    ensures RenderedTo(text + "{" + key + "}" + rest, vars, text + vars[key] + out)
  {
    NextOf(text, key, rest);
    PairText(text, key, vars);
    SubstituteConcat([Literal(text), Key(key)], Parse(rest).value, vars);
  }

  /** A template that is one key renders as the value of that key. */
  lemma OneKeyRenders(key: string, vars: Vars)
    requires '}' !in key && key != ""
    ensures Bound("{" + key + "}", vars.Keys) <==> key in vars
    ensures key in vars ==> RenderedTo("{" + key + "}", vars, vars[key])
  {
    ParseOneKey(key);
    if key in vars {
      PlainRenders("", vars);
      RendersInOrder("", key, "", vars, "");
      assert "" + "{" + key + "}" + "" == "{" + key + "}" && "" + vars[key] + "" == vars[key];
    }
  }

  /** What a parse error reports is there: a pair of braces with nothing between, or an opening one never closed. */
  ghost predicate Shows(s: string, problem: Problem, before: string, after: string) {
    match problem
    case EmptyKey => s == before + "{" + "}" + after
    case Unclosed => s == before + "{" + after && '}' !in after
    case UnknownKey(_) => false
  }

  lemma {:induction false} ParseErrorIsReal(s: string) returns (before: string, after: string)
    requires Parse(s).Err?
    ensures Shows(s, Parse(s).problem, before, after)
    decreases |s|
  {
    var next := Next(s);
    if next.Interpolation? {
      before, after := ParseErrorIsReal(next.rest);
      ShowsFurther(next.text + "{" + next.key + "}", next.rest, Parse(s).problem, before, after);
      before := next.text + "{" + next.key + "}" + before;
    } else {
      before, after := BrokenShows(s);
    }
  }

  lemma BrokenShows(s: string) returns (before: string, after: string)
    requires Next(s).Broken?
    ensures Shows(s, Next(s).problem, before, after)
  {
    var start := IndexOf(s, '{');
    var tail := s[start + 1..];
    CutAtFirst(s, '{');
    before, after := s[..start], tail;
    if IndexOf(tail, '}') == 0 {
      after := tail[1..];
      FirstBrace(before, tail);
    }
  }

  lemma FirstBrace(before: string, tail: string)
    requires tail != "" && tail[0] == '}'
    ensures before + "{" + tail == before + "{" + "}" + tail[1..]
  {
    assert tail == "}" + tail[1..];
  }

  lemma ShowsFurther(front: string, s: string, problem: Problem, before: string, after: string)
    requires Shows(s, problem, before, after)
    ensures Shows(front + s, problem, front + before, after)
  {
    if problem.EmptyKey? {
      assert front + (before + "{" + "}" + after) == front + before + "{" + "}" + after;
    } else {
      assert front + (before + "{" + after) == front + before + "{" + after;
    }
  }
}
