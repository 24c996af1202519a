/** Goal templates: `${name}` is a placeholder, `$${name}` stands for the text `${name}`. */
module GoalTemplate {
  import opened Prelude

  datatype Token = Literal(c: char) | Escaped(name: string) | Hole(name: string)

  datatype Problem =
    | InvalidTemplate
    | MissingParameters(names: set<string>)
    | UnusedParameters(names: set<string>)

  predicate LetterOrUnderscore(c: char) { c == '_' || 'a' <= c <= 'z' || 'A' <= c <= 'Z' }

  predicate ValidParameterName(name: string) {
    && name != [] && LetterOrUnderscore(name[0])
    && forall i :: 1 <= i < |name| ==> LetterOrUnderscore(name[i]) || '0' <= name[i] <= '9'
  }

  /** The name of the placeholder at the start of `s`; None when it is unterminated or not a name. */
  function PlaceholderName(s: string): (name: Option<string>)
    requires "${" <= s
    ensures name.Some? ==> |name.value| + 3 <= |s| && s == "${" + name.value + "}" + s[|name.value| + 3..]
    ensures name.Some? ==> ValidParameterName(name.value)
  {
    var rest := s[2..];
    match IndexOf(rest, '}')
    case None => None
    case Some(end) => if ValidParameterName(rest[..end]) then Some(rest[..end]) else None
  }

  /* Tokens */

  function Print(t: Token): string {
    match t
    case Literal(c) => [c]
    case Escaped(name) => "$${" + name + "}"
    case Hole(name) => "${" + name + "}"
  }

  function PrintAll(ts: seq<Token>): string {
    if ts == [] then "" else Print(ts[0]) + PrintAll(ts[1..])
  }

  lemma EscapedStart(s: string)
    requires "$${" <= s
    ensures "${" <= s[1..]
    ensures PlaceholderName(s[1..]).Some? ==> Print(Escaped(PlaceholderName(s[1..]).value)) <= s
  {
    hide PlaceholderName;
    assert s == "$" + s[1..];
    var rest := s[1..];
    assert rest[0] == s[1] && rest[1] == s[2];
    if PlaceholderName(rest).Some? {
      var name := PlaceholderName(rest).value;
      assert rest == "${" + name + "}" + rest[|name| + 3..];
      assert "$" + ("${" + name + "}") == "$${" + name + "}";
      assert s == "$${" + name + "}" + rest[|name| + 3..];
    }
  }

  /** The token at the start of `s`. */
  function FirstToken(s: string): (t: Option<Token>)
    requires s != ""
    ensures t.Some? ==> Print(t.value) <= s && |Print(t.value)| > 0
  {
    if "$${" <= s then
      EscapedStart(s);
      match PlaceholderName(s[1..])
      case None => None
      case Some(name) => Some(Escaped(name))
    else if "${" <= s then
      match PlaceholderName(s)
      case None => None
      case Some(name) => Some(Hole(name))
    else
      assert s == [s[0]] + s[1..];
      Some(Literal(s[0]))
  }

  /** The tokens of a template; None when it is malformed. */
  function Scan(s: string): Option<seq<Token>>
    decreases |s|
  {
    if s == "" then Some([])
    else
      match FirstToken(s)
      case None => None
      case Some(token) =>
        match Scan(s[|Print(token)|..])
        case None => None
        case Some(tokens) => Some([token] + tokens)
  }

  /** Scanning loses nothing: the tokens print back to the template. */
  lemma {:induction false} ScanLossless(s: string)
    requires Scan(s).Some?
    ensures PrintAll(Scan(s).value) == s
    decreases |s|
  {
    hide FirstToken, Print;
    if s != "" {
      var token := FirstToken(s).value;
      ScanLossless(s[|Print(token)|..]);
      assert Scan(s).value[1..] == Scan(s[|Print(token)|..]).value;
    }
  }

  /** Names are names, and no literal dollar starts what would be read as a placeholder. */
  ghost predicate Canonical(ts: seq<Token>) {
    ts != [] ==>
      && Canonical(ts[1..])
      && match ts[0]
         case Literal(_) => !("${" <= PrintAll(ts)) && !("$${" <= PrintAll(ts))
         case Escaped(name) => ValidParameterName(name)
         case Hole(name) => ValidParameterName(name)
  }

  lemma ClosingBrace(name: string, rest: string)
    requires ValidParameterName(name)
    ensures IndexOf(name + "}" + rest, '}') == Some(|name|)
  {
    var s := name + "}" + rest;
    assert s[..|name|] == name;
    FirstIndex(s, '}', |name|);
  }

  lemma NameReadBack(name: string, rest: string)
    requires ValidParameterName(name)
    ensures "${" <= "${" + name + "}" + rest && PlaceholderName("${" + name + "}" + rest) == Some(name)
  {
    var s := "${" + name + "}" + rest;
    assert s[2..] == name + "}" + rest;
    ClosingBrace(name, rest);
    assert s[2..][..|name|] == name;
  }

  lemma TokenReadBack(t: Token, rest: string)
    requires match t
             case Literal(c) => !("${" <= [c] + rest) && !("$${" <= [c] + rest)
             case Escaped(name) => ValidParameterName(name)
             case Hole(name) => ValidParameterName(name)
    ensures Print(t) + rest != "" && FirstToken(Print(t) + rest) == Some(t)
  {
    hide PlaceholderName, ValidParameterName, FirstToken, Print;
    match t
    case Literal(c) => LiteralReadBack(c, rest);
    case Escaped(name) => EscapedReadBack(name, rest);
    case Hole(name) => HoleReadBack(name, rest);
  }

  lemma LiteralReadBack(c: char, rest: string)
    requires !("${" <= [c] + rest) && !("$${" <= [c] + rest)
    ensures Print(Literal(c)) + rest != "" && FirstToken(Print(Literal(c)) + rest) == Some(Literal(c))
  {
  }

  lemma EscapedReadBack(name: string, rest: string)
    requires ValidParameterName(name)
    ensures Print(Escaped(name)) + rest != "" && FirstToken(Print(Escaped(name)) + rest) == Some(Escaped(name))
  {
    var hole := "${" + name + "}" + rest;
    NameReadBack(name, rest);
    OneMoreDollar(name, rest);
    AfterDollar(hole);
    hide PlaceholderName, ValidParameterName, Print;
  }

  lemma OneMoreDollar(name: string, rest: string)
    ensures Print(Escaped(name)) + rest == "$" + ("${" + name + "}" + rest)
  {
    assert "$${" == "$" + "${";
  }

  lemma AfterDollar(s: string)
    requires "${" <= s
    ensures "$${" <= "$" + s && ("$" + s)[1..] == s
  {
  }

  lemma HoleReadBack(name: string, rest: string)
    requires ValidParameterName(name)
    ensures Print(Hole(name)) + rest != "" && FirstToken(Print(Hole(name)) + rest) == Some(Hole(name))
  {
    NameReadBack(name, rest);
    hide PlaceholderName, ValidParameterName;
    var s := Print(Hole(name)) + rest;
    assert s == "${" + name + "}" + rest;
    assert s[1] == '{';
  }

  /** A token sequence is what scanning finds in its own text exactly when it is canonical. */
  lemma {:induction false} ScanPrintIffCanonical(ts: seq<Token>)
    ensures Scan(PrintAll(ts)) == Some(ts) <==> Canonical(ts)
  {
    hide FirstToken, ValidParameterName;
    if ts != [] {
      var s := PrintAll(ts);
      ScanPrintIffCanonical(ts[1..]);
      if Canonical(ts) {
        TokenReadBack(ts[0], PrintAll(ts[1..]));
        assert s[|Print(ts[0])|..] == PrintAll(ts[1..]);
        assert [ts[0]] + ts[1..] == ts;
      } else if Scan(s) == Some(ts) {
        PrintNotEmpty(ts[0]);
        var token := FirstToken(s).value;
        assert token == ts[0] && Scan(s).value[1..] == ts[1..];
        assert s[|Print(token)|..] == PrintAll(ts[1..]);
        FirstTokenShape(s);
      }
    }
  }

  lemma PrintNotEmpty(t: Token)
    ensures Print(t) != ""
  {
  }

  lemma FirstTokenShape(s: string)
    requires s != "" && FirstToken(s).Some?
    ensures match FirstToken(s).value
            case Literal(_) => !("${" <= s) && !("$${" <= s)
            case Escaped(name) => ValidParameterName(name)
            case Hole(name) => ValidParameterName(name)
  {
    hide PlaceholderName, ValidParameterName;
  }

  /* Interpolation */

  function Holes(ts: seq<Token>): set<string> { set i | 0 <= i < |ts| && ts[i].Hole? :: ts[i].name }

  function RenderToken(t: Token, parameters: map<string, string>): string {
    match t
    case Literal(c) => [c]
    case Escaped(name) => "${" + name + "}"
    case Hole(name) => if name in parameters then parameters[name] else ""
  }

  function Render(ts: seq<Token>, parameters: map<string, string>): string {
    if ts == [] then ""
    else Render(ts[..|ts| - 1], parameters) + RenderToken(ts[|ts| - 1], parameters)
  }

  function Interpolated(template: string, parameters: map<string, string>): Result<string, Problem> {
    match Scan(template)
    case None => Err(InvalidTemplate)
    case Some(ts) =>
      var missing, unused := Holes(ts) - parameters.Keys, parameters.Keys - Holes(ts);
      if missing != {} then Err(MissingParameters(missing))
      else if unused != {} then Err(UnusedParameters(unused))
      else Ok(Render(ts, parameters))
  }

  /** Tokens found so far, and those that are left. */
  ghost predicate ScansTo(template: string, index: nat, before: seq<Token>)
    requires index <= |template|
  {
    Scan(template) == match Scan(template[index..]) case None => None case Some(after) => Some(before + after)
  }

  lemma ScanStep(template: string, index: nat, before: seq<Token>)
    requires index < |template| && ScansTo(template, index, before)
    ensures match FirstToken(template[index..])
            case None => Scan(template).None?
            case Some(token) => ScansTo(template, index + |Print(token)|, before + [token])
  {
    hide FirstToken, Print;
    var s := template[index..];
    if FirstToken(s).Some? {
      var token := FirstToken(s).value;
      assert s[|Print(token)|..] == template[index + |Print(token)|..];
      if Scan(s).Some? { assert before + [token] + Scan(s).value[1..] == before + Scan(s).value; }
    }
  }

  method InterpolateGoal(template: string, parameters: map<string, string>) returns (r: Result<string, Problem>)
    ensures r == Interpolated(template, parameters)
  {
    hide Scan, FirstToken, Print, RenderToken;
    var rendered: string := "";
    var used: set<string>, missing: set<string> := {}, {};
    var index: nat := 0;
    ghost var tokens: seq<Token> := [];
    Start(template);
    while index < |template|
      invariant index <= |template| && ScansTo(template, index, tokens)
      invariant rendered == Render(tokens, parameters)
      invariant used == Holes(tokens) * parameters.Keys && missing == Holes(tokens) - parameters.Keys
    {
      ScanStep(template, index, tokens);
      var piece, name, next := TakeToken(template, index, parameters);
      if next.None? {
        return Err(InvalidTemplate);
      }
      ghost var token := FirstToken(template[index..]).value;
      HolesAppend(tokens, token);
      if name.Some? {
        if name.value in parameters {
          used := used + {name.value};
        } else {
          missing := missing + {name.value};
        }
      }
      assert (tokens + [token])[..|tokens|] == tokens;
      rendered := rendered + piece;
      tokens := tokens + [token];
      index := next.value;
    }
    Finished(template, tokens);
    if missing != {} {
      return Err(MissingParameters(missing));
    }
    var unused := set name | name in parameters && name !in used;
    assert unused == parameters.Keys - Holes(tokens);
    if unused != {} {
      return Err(UnusedParameters(unused));
    }
    r := Ok(rendered);
  }

  /** One step of the scan: what it writes, the placeholder it met, and where the next token starts. */
  method TakeToken(template: string, index: nat, parameters: map<string, string>)
    returns (piece: string, name: Option<string>, next: Option<nat>)
    requires index < |template|
    ensures match FirstToken(template[index..])
            case None => next.None?
            case Some(token) =>
              && next == Some(index + |Print(token)|) && piece == RenderToken(token, parameters)
              && name == (if token.Hole? then Some(token.name) else None)
  {
    hide PlaceholderName;
    piece, name, next := "", None, None;
    var s := template[index..];
    if "$${" <= s {
      assert template[index + 1..] == s[1..];
      var placeholder := PlaceholderName(template[index + 1..]);
      if placeholder.Some? {
        piece, next := "${" + placeholder.value + "}", Some(index + 4 + |placeholder.value|);
      }
    } else if "${" <= s {
      var placeholder := PlaceholderName(s);
      if placeholder.Some? {
        name, next := placeholder, Some(index + 3 + |placeholder.value|);
        if placeholder.value in parameters {
          piece := parameters[placeholder.value];
        }
      }
    } else {
      piece, next := [template[index]], Some(index + 1);
    }
  }

  lemma Start(template: string)
    ensures ScansTo(template, 0, [])
  {
    assert template[0..] == template;
    if Scan(template).Some? { assert [] + Scan(template).value == Scan(template).value; }
  }

  lemma Finished(template: string, tokens: seq<Token>)
    requires ScansTo(template, |template|, tokens)
    ensures Scan(template) == Some(tokens)
  {
    assert template[|template|..] == "";
    assert tokens + [] == tokens;
  }

  lemma HolesAppend(ts: seq<Token>, t: Token)
    ensures Holes(ts + [t]) == Holes(ts) + if t.Hole? then {t.name} else {}
  {
    var longer := ts + [t];
    forall name | name in Holes(ts) ensures name in Holes(longer) {
      var i :| 0 <= i < |ts| && ts[i].Hole? && ts[i].name == name;
      assert longer[i].Hole? && longer[i].name == name;
    }
    if t.Hole? { assert longer[|ts|].Hole? && longer[|ts|].name == t.name; }
  }

  /** Interpolation succeeds exactly when the template is well formed and its names are the given ones. */
  lemma InterpolatesIff(template: string, parameters: map<string, string>)
    ensures Interpolated(template, parameters).Ok?
       <==> Scan(template).Some? && Holes(Scan(template).value) == parameters.Keys
  {
    hide Scan, Holes, Render;
    if Scan(template).Some? {
      var holes := Holes(Scan(template).value);
      assert holes == parameters.Keys <==> holes - parameters.Keys == {} && parameters.Keys - holes == {};
    }
  }

  /** The result is the rendered tokens side by side. */
  lemma {:induction false} RenderConcat(a: seq<Token>, b: seq<Token>, parameters: map<string, string>)
    ensures Render(a + b, parameters) == Render(a, parameters) + Render(b, parameters)
  {
    hide RenderToken;
    if b == [] {
      assert a + b == a;
    } else {
      var n := |b| - 1;
      assert (a + b)[..|a| + n] == a + b[..n];
      RenderConcat(a, b[..n], parameters);
    }
  }

  lemma RenderOne(t: Token, parameters: map<string, string>)
    ensures Render([t], parameters) == RenderToken(t, parameters)
  {
    assert [t][..0] == [];
  }

  lemma HolesConcat(a: seq<Token>, b: seq<Token>)
    ensures Holes(a + b) == Holes(a) + Holes(b)
  {
    forall name | name in Holes(a) ensures name in Holes(a + b) {
      var i :| 0 <= i < |a| && a[i].Hole? && a[i].name == name;
      assert (a + b)[i] == a[i];
    }
    forall name | name in Holes(b) ensures name in Holes(a + b) {
      var i :| 0 <= i < |b| && b[i].Hole? && b[i].name == name;
      assert (a + b)[|a| + i] == b[i];
    }
  }

  lemma RenderAround(a: seq<Token>, t: Token, b: seq<Token>, parameters: map<string, string>)
    ensures Render(a + [t] + b, parameters) == Render(a, parameters) + RenderToken(t, parameters) + Render(b, parameters)
  {
    hide RenderToken, Render;
    RenderConcat(a + [t], b, parameters);
    RenderConcat(a, [t], parameters);
    RenderOne(t, parameters);
  }

  /** Values are never scanned again: a placeholder in any template becomes its value, whatever that contains. */
  lemma ValueNotRescanned(template: string, a: seq<Token>, name: string, b: seq<Token>, parameters: map<string, string>)
    requires Scan(template) == Some(a + [Hole(name)] + b) && Interpolated(template, parameters).Ok?
    ensures name in parameters
    ensures Interpolated(template, parameters) == Ok(Render(a, parameters) + parameters[name] + Render(b, parameters))
  {
    hide Scan, Render;
    var ts := a + [Hole(name)] + b;
    assert ts[|a|] == Hole(name);
    assert name in Holes(ts);
    RenderAround(a, Hole(name), b, parameters);
    InterpolatesIff(template, parameters);
  }

  /** An escaped placeholder in any template becomes the placeholder itself, and needs no parameter. */
  lemma EscapeUnescapes(template: string, a: seq<Token>, name: string, b: seq<Token>, parameters: map<string, string>)
    requires Scan(template) == Some(a + [Escaped(name)] + b)
    ensures Interpolated(template, parameters).Ok? <==> Holes(a) + Holes(b) == parameters.Keys
    ensures Interpolated(template, parameters).Ok? ==>
              Interpolated(template, parameters) == Ok(Render(a, parameters) + Print(Hole(name)) + Render(b, parameters))
  {
    InterpolatesIff(template, parameters);
    HolesConcat(a + [Escaped(name)], b);
    HolesConcat(a, [Escaped(name)]);
    assert Holes([Escaped(name)]) == {};
    RenderAround(a, Escaped(name), b, parameters);
    hide Scan, Render, Holes;
  }
}
