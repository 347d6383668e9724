/** Python's str.format with keyword arguments only, as the prompt builder
    uses it: "{name}" is replaced by the argument of that name, "{{" and "}}"
    stand for single braces, and the string is read left to right so that the
    first problem met is the exception raised. */
module StrFormat {
  import opened Outcomes

  const SingleOpen := "Single '{' encountered in format string"
  const SingleClose := "Single '}' encountered in format string"
  const UnclosedField := "expected '}' before end of string"

  /** Index of the first '}' in s, or |s| when s has none. */
  function CloseAt(s: string): (k: nat)
    ensures k <= |s|
    ensures k < |s| ==> s[k] == '}'
    ensures forall i :: 0 <= i < k ==> s[i] != '}'
    decreases |s|
  {
    if s == [] || s[0] == '}' then 0 else 1 + CloseAt(s[1..])
  }

  /** How the text between '{' and '}' is read. */
  datatype FieldKind =
    | Named(name: string)   // a keyword argument
    | Positional            // "" or all digits: a positional argument, of which there are none
    | Unsupported           // a conversion, format spec, attribute, index or nested brace

  /** The characters that make a field more than a bare name. */
  const FieldMarkup := "{!:.["

  function ClassifyField(body: string): (k: FieldKind)
    ensures k.Unsupported? <==> exists i :: 0 <= i < |body| && body[i] in FieldMarkup
    ensures k.Positional? <==> (forall i :: 0 <= i < |body| ==> body[i] !in FieldMarkup)
                               && forall i :: 0 <= i < |body| ==> '0' <= body[i] <= '9'
    ensures k.Named? <==> (forall i :: 0 <= i < |body| ==> body[i] !in FieldMarkup)
                          && exists i :: 0 <= i < |body| && !('0' <= body[i] <= '9')
    ensures k.Named? ==> k.name == body && body != []
  {
    if exists i :: 0 <= i < |body| && body[i] in FieldMarkup then Unsupported
    else if forall i :: 0 <= i < |body| ==> '0' <= body[i] <= '9' then Positional
    else Named(body)
  }

  function Prepend(p: string, r: Result<string>): Result<string> {
    if r.Ok? then Ok(p + r.value) else r
  }

  /** template.format(**args) */
  function Format(t: string, args: map<string, string>): (r: Result<string>)
    ensures r.Err? && r.error.KeyError? ==> r.error.key !in args
    decreases |t|
  {
    if t == [] then Ok("")
    else if t[0] == '{' then
      if |t| == 1 then Err(ValueError(SingleOpen))
      else if t[1] == '{' then Prepend("{", Format(t[2..], args))
      else
        var k := CloseAt(t[1..]);
        if k == |t| - 1 then Err(ValueError(UnclosedField))
        else
          var body := t[1..k + 1];
          match ClassifyField(body)
          case Unsupported => Err(UnsupportedField(body))
          case Positional => Err(IndexError)
          case Named(n) => if n in args then Prepend(args[n], Format(t[k + 2..], args)) else Err(KeyError(n))
    else if t[0] == '}' then
      if |t| > 1 && t[1] == '}' then Prepend("}", Format(t[2..], args)) else Err(ValueError(SingleClose))
    else
      Prepend([t[0]], Format(t[1..], args))
  }

  /** A template read on its own, before any argument is looked up. */
  datatype Piece = Text(c: char) | Field(name: string)

  function Cons(p: Piece, r: Result<seq<Piece>>): Result<seq<Piece>> {
    if r.Ok? then Ok([p] + r.value) else r
  }

  /** The pieces of a template, or the error its text alone provokes. */
  function Parse(t: string): Result<seq<Piece>>
    decreases |t|
  {
    if t == [] then Ok([])
    else if t[0] == '{' then
      if |t| == 1 then Err(ValueError(SingleOpen))
      else if t[1] == '{' then Cons(Text('{'), Parse(t[2..]))
      else
        var k := CloseAt(t[1..]);
        if k == |t| - 1 then Err(ValueError(UnclosedField))
        else
          var body := t[1..k + 1];
          match ClassifyField(body)
          case Unsupported => Err(UnsupportedField(body))
          case Positional => Err(IndexError)
          case Named(n) => Cons(Field(n), Parse(t[k + 2..]))
    else if t[0] == '}' then
      if |t| > 1 && t[1] == '}' then Cons(Text('}'), Parse(t[2..])) else Err(ValueError(SingleClose))
    else
      Cons(Text(t[0]), Parse(t[1..]))
  }

  /** The names a parsed template refers to. */
  function FieldNames(ps: seq<Piece>): set<string>
    decreases |ps|
  {
    if ps == [] then {}
    else (if ps[0].Field? then {ps[0].name} else {}) + FieldNames(ps[1..])
  }

  /** Substitutes the arguments into parsed pieces, left to right. */
  function Render(ps: seq<Piece>, args: map<string, string>): Result<string>
    decreases |ps|
  {
    if ps == [] then Ok("")
    else match ps[0]
      case Text(c) => Prepend([c], Render(ps[1..], args))
      case Field(n) => if n in args then Prepend(args[n], Render(ps[1..], args)) else Err(KeyError(n))
  }

  lemma {:induction false} RenderCons(p: Piece, r: Result<seq<Piece>>, args: map<string, string>)
    requires r.Ok?
    ensures Cons(p, r).Ok? && Render(Cons(p, r).value, args) == Render([p] + r.value, args)
    ensures ([p] + r.value)[1..] == r.value
  {
  }

  /** Rendering succeeds exactly when every referenced name is supplied. */
  lemma {:induction false} RenderOkIff(ps: seq<Piece>, args: map<string, string>)
    ensures Render(ps, args).Ok? <==> FieldNames(ps) <= args.Keys
    decreases |ps|
  {
    if ps != [] {
      RenderOkIff(ps[1..], args);
    }
  }

  /** Rendering reads only the referenced names. */
  lemma {:induction false} RenderReadsOnlyFieldNames(ps: seq<Piece>, a: map<string, string>, b: map<string, string>)
    requires forall n :: n in FieldNames(ps) ==> (n in a <==> n in b) && (n in a ==> a[n] == b[n])
    ensures Render(ps, a) == Render(ps, b)
    decreases |ps|
  {
    if ps != [] {
      assert FieldNames(ps[1..]) <= FieldNames(ps);
      RenderReadsOnlyFieldNames(ps[1..], a, b);
    }
  }

  /** Formatting is parsing followed by rendering; a template whose text is
      malformed fails whatever the arguments. */
  lemma {:induction false} FormatIsParseThenRender(t: string, args: map<string, string>)
    ensures Parse(t).Ok? ==> Format(t, args) == Render(Parse(t).value, args)
    ensures Parse(t).Err? ==> Format(t, args).Err?
    decreases |t|
  {
    if t == [] {
    } else if t[0] == '{' {
      if |t| > 1 && t[1] == '{' {
        FormatIsParseThenRender(t[2..], args);
        if Parse(t[2..]).Ok? { RenderCons(Text('{'), Parse(t[2..]), args); }
      } else if |t| > 1 {
        var k := CloseAt(t[1..]);
        if k < |t| - 1 && ClassifyField(t[1..k + 1]).Named? {
          FormatIsParseThenRender(t[k + 2..], args);
          if Parse(t[k + 2..]).Ok? { RenderCons(Field(t[1..k + 1]), Parse(t[k + 2..]), args); }
        }
      }
    } else if t[0] == '}' {
      if |t| > 1 && t[1] == '}' {
        FormatIsParseThenRender(t[2..], args);
        if Parse(t[2..]).Ok? { RenderCons(Text('}'), Parse(t[2..]), args); }
      }
    } else {
      FormatIsParseThenRender(t[1..], args);
      if Parse(t[1..]).Ok? { RenderCons(Text(t[0]), Parse(t[1..]), args); }
    }
  }

  /** str.format succeeds exactly when the template is well formed and every
      name it refers to is supplied. */
  lemma FormatOkIff(t: string, args: map<string, string>)
    ensures Format(t, args).Ok? <==> Parse(t).Ok? && FieldNames(Parse(t).value) <= args.Keys
  {
    FormatIsParseThenRender(t, args);
    if Parse(t).Ok? {
      RenderOkIff(Parse(t).value, args);
    }
  }

  /** Supplied names the template does not refer to make no difference. */
  lemma FormatIgnoresUnusedNames(t: string, args: map<string, string>, extra: map<string, string>)
    requires Parse(t).Ok? && FieldNames(Parse(t).value) !! extra.Keys
    ensures Format(t, args + extra) == Format(t, args)
  {
    FormatIsParseThenRender(t, args);
    FormatIsParseThenRender(t, args + extra);
    RenderReadsOnlyFieldNames(Parse(t).value, args + extra, args);
  }

  /** The template that formats to s: every brace doubled. */
  function Escape(s: string): (t: string)
    ensures |t| >= |s|
    decreases |s|
  {
    if s == [] then ""
    else (if s[0] == '{' || s[0] == '}' then [s[0], s[0]] else [s[0]]) + Escape(s[1..])
  }

  /** One escaped character is copied to the output ahead of what follows. */
  lemma FormatEscapedChar(c: char, u: string, args: map<string, string>)
    ensures Format(Escape([c]) + u, args) == Prepend([c], Format(u, args))
  {
    assert [c][1..] == [];
    var t := Escape([c]) + u;
    if c == '{' || c == '}' {
      assert Escape([c]) == [c, c];
      assert t[2..] == u;
    } else {
      assert Escape([c]) == [c];
      assert t[1..] == u;
    }
  }

  lemma PrependTwice(a: string, b: string, r: Result<string>)
    ensures Prepend(a, Prepend(b, r)) == Prepend(a + b, r)
  {
    if r.Ok? { assert a + (b + r.value) == (a + b) + r.value; }
  }

  lemma {:induction false} FormatEscapedPrefix(s: string, rest: string, args: map<string, string>)
    ensures Format(Escape(s) + rest, args) == Prepend(s, Format(rest, args))
    decreases |s|
  {
    if s == [] {
      assert Escape(s) + rest == rest;
      assert Prepend(s, Format(rest, args)) == Format(rest, args) by {
        if Format(rest, args).Ok? { assert s + Format(rest, args).value == Format(rest, args).value; }
      }
    } else {
      var u := Escape(s[1..]) + rest;
      assert Escape(s) == Escape([s[0]]) + Escape(s[1..]) by { assert [s[0]][1..] == []; }
      assert Escape(s) + rest == Escape([s[0]]) + u;
      FormatEscapedChar(s[0], u, args);
      FormatEscapedPrefix(s[1..], rest, args);
      PrependTwice([s[0]], s[1..], Format(rest, args));
      assert [s[0]] + s[1..] == s;
    }
  }

  /** Formatting an escaped string gives the string back, whatever the arguments. */
  lemma FormatOfEscape(s: string, args: map<string, string>)
    ensures Format(Escape(s), args) == Ok(s)
  {
    FormatEscapedPrefix(s, "", args);
    assert Escape(s) + "" == Escape(s);
    assert s + "" == s;
  }

  lemma FormatLeadingField(n: string, rest: string, args: map<string, string>)
    requires ClassifyField(n) == Named(n) && '}' !in n
    ensures Format("{" + n + "}" + rest, args)
         == if n in args then Prepend(args[n], Format(rest, args)) else Err(KeyError(n))
  {
    var t := "{" + n + "}" + rest;
    assert t[1..] == n + "}" + rest;
    assert CloseAt(t[1..]) == |n| by {
      assert t[1..][|n|] == '}';
      assert forall i :: 0 <= i < |n| ==> t[1..][i] == n[i];
    }
    assert t[0] == '{' && t[1] != '{';
    assert t[1..|n| + 1] == n;
    assert t[|n| + 2..] == rest;
  }

  /** A named field followed by escaped text. */
  lemma FormatFieldThenText(n: string, b: string, args: map<string, string>)
    requires ClassifyField(n) == Named(n) && '}' !in n
    ensures Format("{" + n + "}" + Escape(b), args) == if n in args then Ok(args[n] + b) else Err(KeyError(n))
  {
    FormatLeadingField(n, Escape(b), args);
    FormatOfEscape(b, args);
  }

  /** A single named field between escaped text is replaced by its argument,
      and raises KeyError when that argument is missing. */
  lemma FormatOneField(a: string, n: string, b: string, args: map<string, string>)
    requires ClassifyField(n) == Named(n) && '}' !in n
    ensures Format(Escape(a) + ("{" + n + "}" + Escape(b)), args)
         == if n in args then Ok(a + args[n] + b) else Err(KeyError(n))
  {
    FormatEscapedPrefix(a, "{" + n + "}" + Escape(b), args);
    FormatFieldThenText(n, b, args);
    if n in args {
      assert a + (args[n] + b) == a + args[n] + b;
    }
  }
}
