/**
  Template substitution: `out.format(**kwargs)` restricted to `{name}`
  fields and the `{{`/`}}` escapes, the keyword arguments built from the
  first value of each query parameter, and the text the handler shows when a
  field has no argument.
 */
module Template {
  import opened Wrappers
  import opened Text

  /** What `cgi.parse_qs` produces: every name maps to a non-empty list of values. */
  type Values = s: seq<string> | |s| > 0 witness [""]
  type Params = map<string, Values>

  /** Outcome of `str.format`, as far as this model follows it. */
  datatype FormatResult =
    | Formatted(text: string)
    | MissingKey(key: string)   // KeyError(key)
    | FormatError               // ValueError (a lone brace) or IndexError (a positional field)
    | Unsupported               // a conversion, format spec, attribute, index or nested field

  /** The first `}` in s, if any. */
  function FindClose(s: string): (r: Option<nat>)
    ensures r.Some? ==> r.value < |s| && s[r.value] == '}' && '}' !in s[..r.value]
    ensures r.None? ==> '}' !in s
  {
    if s == [] then None
    else if s[0] == '}' then Some(0)
    else
      var r := FindClose(s[1..]);
      if r.None? then None
      else
        assert s[..r.value + 1] == [s[0]] + s[1..][..r.value];
        Some(r.value + 1)
  }

  /** The first `}` after text holding none is the one right after it. */
  lemma {:induction false} FindCloseAfter(a: string, b: string)
    requires '}' !in a
    ensures FindClose(a + "}" + b) == Some(|a|)
  {
    if a != [] {
      var s := a + "}" + b;
      assert s[0] == a[0] && s[1..] == a[1..] + "}" + b;
      FindCloseAfter(a[1..], b);
    }
  }

  /** A field holding one of these is outside the `{name}` form. */
  predicate IsFieldSyntax(c: char)
  {
    c == '.' || c == '[' || c == '!' || c == ':' || c == '{'
  }

  predicate IsPlainField(field: string)
  {
    forall i :: 0 <= i < |field| ==> !IsFieldSyntax(field[i])
  }

  /** An empty or all-digit field names a positional argument; there are none. */
  predicate IsPositional(field: string)
  {
    AllDigits(field)
  }

  function Prepend(prefix: string, r: FormatResult): (p: FormatResult)
    ensures r.Formatted? ==> p == Formatted(prefix + r.text)
    ensures !r.Formatted? ==> p == r
  {
    if r.Formatted? then Formatted(prefix + r.text) else r
  }

  /** `t.format(**kwargs)`, scanning the template left to right; the first
      error met is the one raised. */
  function Format(t: string, kwargs: map<string, string>): FormatResult
    decreases |t|
  {
    if t == [] then Formatted([])
    else if t[0] == '{' then
      if |t| >= 2 && t[1] == '{' then Prepend("{", Format(t[2..], kwargs))
      else
        var close := FindClose(t[1..]);
        if close.None? then FormatError
        else
          var field := t[1..1 + close.value];
          if !IsPlainField(field) then Unsupported
          else if IsPositional(field) then FormatError
          else if field !in kwargs then MissingKey(field)
          else Prepend(kwargs[field], Format(t[close.value + 2..], kwargs))
    else if t[0] == '}' then
      if |t| >= 2 && t[1] == '}' then Prepend("}", Format(t[2..], kwargs)) else FormatError
    else Prepend([t[0]], Format(t[1..], kwargs))
  }

  // ---------------------------------------------------------------------
  // A reference reading in two phases: cut the template into pieces, then
  // substitute.

  datatype Piece = Literal(text: string) | Field(name: string)

  /** How the template ends after its last well-formed piece. */
  datatype Ending = Complete | Broken | Complex

  datatype Parsed = Parsed(pieces: seq<Piece>, ending: Ending)

  function Cons(p: Piece, rest: Parsed): Parsed
  {
    Parsed([p] + rest.pieces, rest.ending)
  }

  /** The pieces of a template, stopping at the first malformed or
      unsupported field. */
  function Parse(t: string): (r: Parsed)
    ensures forall i :: 0 <= i < |r.pieces| && r.pieces[i].Field? ==>
              r.pieces[i].name != [] && IsPlainField(r.pieces[i].name)
    decreases |t|
  {
    if t == [] then Parsed([], Complete)
    else if t[0] == '{' then
      if |t| >= 2 && t[1] == '{' then Cons(Literal("{"), Parse(t[2..]))
      else
        var close := FindClose(t[1..]);
        if close.None? then Parsed([], Broken)
        else
          var field := t[1..1 + close.value];
          if !IsPlainField(field) then Parsed([], Complex)
          else if IsPositional(field) then Parsed([], Broken)
          else Cons(Field(field), Parse(t[close.value + 2..]))
    else if t[0] == '}' then
      if |t| >= 2 && t[1] == '}' then Cons(Literal("}"), Parse(t[2..])) else Parsed([], Broken)
    else Cons(Literal([t[0]]), Parse(t[1..]))
  }

  /** Substitutes every field in order; the first field without an argument
      stops the substitution, and a clean run ends as the template ended. */
  function Render(pieces: seq<Piece>, ending: Ending, kwargs: map<string, string>): FormatResult
  {
    if pieces == [] then
      match ending
      case Complete => Formatted([])
      case Broken => FormatError
      case Complex => Unsupported
    else
      match pieces[0]
      case Literal(s) => Prepend(s, Render(pieces[1..], ending, kwargs))
      case Field(n) =>
        if n in kwargs then Prepend(kwargs[n], Render(pieces[1..], ending, kwargs)) else MissingKey(n)
  }

  /** The scanning substitution agrees with parse-then-substitute. */
  lemma {:induction false} FormatIsRender(t: string, kwargs: map<string, string>)
    ensures Format(t, kwargs) == Render(Parse(t).pieces, Parse(t).ending, kwargs)
    decreases |t|
  {
    if t == [] {
    } else if t[0] == '{' {
      if |t| >= 2 && t[1] == '{' {
        FormatIsRender(t[2..], kwargs);
        assert Parse(t).pieces[1..] == Parse(t[2..]).pieces;
      } else {
        var close := FindClose(t[1..]);
        if close.Some? {
          var field := t[1..1 + close.value];
          if IsPlainField(field) && !IsPositional(field) {
            FormatIsRender(t[close.value + 2..], kwargs);
            assert Parse(t).pieces[1..] == Parse(t[close.value + 2..]).pieces;
          }
        }
      }
    } else if t[0] == '}' {
      if |t| >= 2 && t[1] == '}' {
        FormatIsRender(t[2..], kwargs);
        assert Parse(t).pieces[1..] == Parse(t[2..]).pieces;
      }
    } else {
      FormatIsRender(t[1..], kwargs);
      assert Parse(t).pieces[1..] == Parse(t[1..]).pieces;
    }
  }

  /** The field names of a parsed template, in order. */
  function FieldNames(pieces: seq<Piece>): (names: seq<string>)
    ensures forall n :: n in names <==> exists i :: 0 <= i < |pieces| && pieces[i] == Field(n)
  {
    if pieces == [] then []
    else
      var rest := FieldNames(pieces[1..]);
      assert forall i :: 0 < i < |pieces| ==> pieces[i] == pieces[1..][i - 1];
      assert forall i :: 0 <= i < |pieces| - 1 ==> pieces[1..][i] == pieces[i + 1];
      match pieces[0]
      case Literal(_) => rest
      case Field(n) => [n] + rest
  }

  /** Substitution succeeds exactly when the template is complete and every
      field has an argument. */
  lemma {:induction false} RenderFormattedIff(pieces: seq<Piece>, ending: Ending, kwargs: map<string, string>)
    ensures Render(pieces, ending, kwargs).Formatted?
        <==> ending == Complete && forall n :: n in FieldNames(pieces) ==> n in kwargs
  {
    if pieces != [] {
      RenderFormattedIff(pieces[1..], ending, kwargs);
    }
  }

  /** `k` is the name at position `j`, it has no argument, and every name before it has one. */
  predicate FirstMissingAt(names: seq<string>, kwargs: map<string, string>, k: string, j: int)
  {
    0 <= j < |names| && names[j] == k && k !in kwargs
    && forall i :: 0 <= i < j ==> names[i] in kwargs
  }

  /** A name that has an argument shifts the first missing one by a place. */
  lemma FirstMissingAfter(n: string, rest: seq<string>, kwargs: map<string, string>, k: string)
    requires n in kwargs
    ensures (exists j :: FirstMissingAt([n] + rest, kwargs, k, j))
        <==> (exists j :: FirstMissingAt(rest, kwargs, k, j))
  {
    var names := [n] + rest;
    if exists j :: FirstMissingAt(rest, kwargs, k, j) {
      var j :| FirstMissingAt(rest, kwargs, k, j);
      forall i | 0 <= i < j + 1 ensures names[i] in kwargs {
        if i > 0 { assert names[i] == rest[i - 1]; }
      }
      assert FirstMissingAt(names, kwargs, k, j + 1);
    }
    if exists j :: FirstMissingAt(names, kwargs, k, j) {
      var j :| FirstMissingAt(names, kwargs, k, j);
      assert j > 0 && rest[j - 1] == names[j];
      forall i | 0 <= i < j - 1 ensures rest[i] in kwargs {
        assert rest[i] == names[i + 1];
      }
      assert FirstMissingAt(rest, kwargs, k, j - 1);
    }
  }

  /** A KeyError names the first field, in template order, that has no argument. */
  lemma {:induction false} RenderMissingKey(pieces: seq<Piece>, ending: Ending, kwargs: map<string, string>, k: string)
    ensures Render(pieces, ending, kwargs) == MissingKey(k)
        <==> exists j :: FirstMissingAt(FieldNames(pieces), kwargs, k, j)
  {
    if pieces != [] {
      RenderMissingKey(pieces[1..], ending, kwargs, k);
      var names := FieldNames(pieces);
      var rest := FieldNames(pieces[1..]);
      if pieces[0].Field? {
        assert names == [pieces[0].name] + rest;
        if pieces[0].name in kwargs {
          var r := Render(pieces[1..], ending, kwargs);
          assert Render(pieces, ending, kwargs) == Prepend(kwargs[pieces[0].name], r);
          assert Render(pieces, ending, kwargs) == MissingKey(k) <==> r == MissingKey(k);
          FirstMissingAfter(pieces[0].name, rest, kwargs, k);
          assert Render(pieces, ending, kwargs) == MissingKey(k) <==> exists j :: FirstMissingAt(FieldNames(pieces), kwargs, k, j);
        } else {
          if Render(pieces, ending, kwargs) == MissingKey(k) {
            assert FirstMissingAt(names, kwargs, k, 0);
          }
          if exists j :: FirstMissingAt(names, kwargs, k, j) {
            var j :| FirstMissingAt(names, kwargs, k, j);
            assert names[0] == pieces[0].name;
            assert names[0] !in kwargs;
            assert j == 0 && pieces[0].name == k;
            assert Render(pieces, ending, kwargs) == MissingKey(k);
          }
          assert Render(pieces, ending, kwargs) == MissingKey(k) <==> exists j :: FirstMissingAt(FieldNames(pieces), kwargs, k, j);
        }
      } else {
        assert names == rest;
        assert Render(pieces, ending, kwargs) == MissingKey(k) <==> Render(pieces[1..], ending, kwargs) == MissingKey(k);
        assert Render(pieces, ending, kwargs) == MissingKey(k) <==> exists j :: FirstMissingAt(FieldNames(pieces), kwargs, k, j);
      }
    }
  }

  /** A template with no braces comes back unchanged, whatever the arguments. */
  lemma {:induction false} FormatWithoutBraces(t: string, kwargs: map<string, string>)
    requires '{' !in t && '}' !in t
    ensures Format(t, kwargs) == Formatted(t)
    decreases |t|
  {
    if t != [] {
      assert t[0] != '{' && t[0] != '}';
      FormatWithoutBraces(t[1..], kwargs);
      assert t == [t[0]] + t[1..];
    }
  }

  /** Text without braces is copied through ahead of whatever follows. */
  lemma {:induction false} FormatLiteralPrefix(a: string, t: string, kwargs: map<string, string>)
    requires '{' !in a && '}' !in a
    ensures Format(a + t, kwargs) == Prepend(a, Format(t, kwargs))
    decreases |a|
  {
    if a == [] {
      assert a + t == t;
    } else {
      var s := a + t;
      assert s[0] == a[0] && s[1..] == a[1..] + t;
      assert a[0] in a;
      assert Format(s, kwargs) == Prepend([a[0]], Format(a[1..] + t, kwargs));
      FormatLiteralPrefix(a[1..], t, kwargs);
      PrependTwice([a[0]], a[1..], Format(t, kwargs));
      assert [a[0]] + a[1..] == a;
    }
  }

  lemma PrependTwice(x: string, y: string, r: FormatResult)
    ensures Prepend(x, Prepend(y, r)) == Prepend(x + y, r)
  {
    if r.Formatted? {
      assert x + (y + r.text) == (x + y) + r.text;
    }
  }

  /** A `{name}` field: its argument, or a KeyError naming it. */
  lemma FormatField(name: string, t: string, kwargs: map<string, string>)
    requires name != [] && IsPlainField(name) && !IsPositional(name) && '}' !in name
    ensures Format("{" + name + "}" + t, kwargs)
         == if name in kwargs then Prepend(kwargs[name], Format(t, kwargs)) else MissingKey(name)
  {
    var s := "{" + name + "}" + t;
    assert s[1] == name[0] by { assert s[1..] == name + "}" + t; }
    assert name[0] != '{' by { assert !IsFieldSyntax(name[0]); }
    var tail := s[1..];
    assert tail == name + ("}" + t);
    assert tail[|name|] == '}' && tail[..|name|] == name;
    FindCloseAfter(name, t);
    assert s[1..1 + |name|] == name;
    assert s[|name| + 2..] == t;
  }

  /** A field followed by plain text: the argument then the text, or a KeyError. */
  lemma FormatFieldThenText(name: string, b: string, kwargs: map<string, string>)
    requires '{' !in b && '}' !in b
    requires name != [] && IsPlainField(name) && !IsPositional(name) && '}' !in name
    ensures Format("{" + name + "}" + b, kwargs)
         == if name in kwargs then Formatted(kwargs[name] + b) else MissingKey(name)
  {
    FormatWithoutBraces(b, kwargs);
    FormatField(name, b, kwargs);
  }

  /** One field between plain texts is replaced by its argument. */
  lemma FormatOneField(a: string, name: string, b: string, kwargs: map<string, string>)
    requires '{' !in a && '}' !in a && '{' !in b && '}' !in b
    requires name != [] && IsPlainField(name) && !IsPositional(name) && '}' !in name
    requires name in kwargs
    ensures Format(a + "{" + name + "}" + b, kwargs) == Formatted(a + kwargs[name] + b)
  {
    var rest := "{" + name + "}" + b;
    var t := a + rest;
    assert a + "{" + name + "}" + b == t;
    FormatFieldThenText(name, b, kwargs);
    var r := Format(rest, kwargs);
    assert r == Formatted(kwargs[name] + b);
    FormatLiteralPrefix(a, rest, kwargs);
    assert Format(t, kwargs) == Prepend(a, r);
    assert a + (kwargs[name] + b) == a + kwargs[name] + b;
  }

  /** One field without an argument raises a KeyError naming it, whatever text surrounds it. */
  lemma FormatOneFieldMissing(a: string, name: string, b: string, kwargs: map<string, string>)
    requires '{' !in a && '}' !in a && '{' !in b && '}' !in b
    requires name != [] && IsPlainField(name) && !IsPositional(name) && '}' !in name
    requires name !in kwargs
    ensures Format(a + "{" + name + "}" + b, kwargs) == MissingKey(name)
  {
    var rest := "{" + name + "}" + b;
    var t := a + rest;
    assert a + "{" + name + "}" + b == t;
    FormatFieldThenText(name, b, kwargs);
    var r := Format(rest, kwargs);
    assert r == MissingKey(name);
    FormatLiteralPrefix(a, rest, kwargs);
    assert Format(t, kwargs) == Prepend(a, r);
  }

  /** The shape of the handler's documented template: `{title}` is filled in. */
  lemma FormatExample(title: string)
    ensures Format("<b>{title}</b>", map["title" := title]) == Formatted("<b>" + title + "</b>")
  {
    assert !IsPositional("title") by { assert !IsDigit("title"[0]); }
    FormatOneField("<b>", "title", "</b>", map["title" := title]);
    assert "<b>" + "{" + "title" + "}" + "</b>" == "<b>{title}</b>";
  }

  /** The same template without a `title` argument raises KeyError('title'). */
  lemma FormatMissingExample(kwargs: map<string, string>)
    requires "title" !in kwargs
    ensures Format("<b>{title}</b>", kwargs) == MissingKey("title")
  {
    assert !IsPositional("title") by { assert !IsDigit("title"[0]); }
    FormatOneFieldMissing("<b>", "title", "</b>", kwargs);
    assert "<b>" + "{" + "title" + "}" + "</b>" == "<b>{title}</b>";
  }

  /** Doubled braces stand for themselves, whatever the arguments. */
  lemma FormatEscapedBraces(kwargs: map<string, string>)
    ensures Format("{{title}}", kwargs) == Formatted("{title}")
  {
    var t := "{{title}}";
    assert t[2..] == "title" + "}}";
    FormatLiteralPrefix("title", "}}", kwargs);
    assert "}}"[2..] == [];
  }

  /** The keyword arguments: the first value of every parameter. */
  function FirstValueMap(params: Params): (kwargs: map<string, string>)
    ensures kwargs.Keys == params.Keys
    ensures forall k :: k in params ==> kwargs[k] == params[k][0]
  {
    map k | k in params :: params[k][0]
  }

  /** The loop `for key in req.m_params: kwargs[key] = req.m_params[key][0]`. */
  method FirstValues(params: Params) returns (kwargs: map<string, string>)
    ensures kwargs == FirstValueMap(params)
  {
    kwargs := map[];
    var keys := params.Keys;
    while keys != {}
      invariant keys <= params.Keys
      invariant kwargs.Keys == params.Keys - keys
      invariant forall k :: k in kwargs ==> kwargs[k] == params[k][0]
      decreases |keys|
    {
      var key :| key in keys;
      kwargs := kwargs[key := params[key][0]];
      keys := keys - {key};
    }
  }

  // ---------------------------------------------------------------------
  // The page shown when a field has no argument:
  // '<!-- ERROR: {0!r} -->\n{1}'.format(exc, out)

  function HexDigit(d: nat): (c: char)
    requires d < 16
  {
    if d < 10 then DigitChar(d) else ('a' as int + d - 10) as char
  }

  /** One byte of a Python 2 string literal between the given quotes. */
  function ReprChar(c: char, quote: char): (r: string)
    ensures |r| >= 1
  {
    if c == quote || c == '\\' then ['\\', c]
    else if c == '\t' then "\\t"
    else if c == '\n' then "\\n"
    else if c == '\r' then "\\r"
    else if c < ' ' || c >= '\U{7F}' then
      ['\\', 'x', HexDigit((c as int / 16) % 16), HexDigit(c as int % 16)]
    else [c]
  }

  function ReprBody(s: string, quote: char): string
  {
    if s == [] then [] else ReprChar(s[0], quote) + ReprBody(s[1..], quote)
  }

  /** `repr` of a byte string: single quotes unless it holds a single quote and no double one. */
  function Repr(s: string): (r: string)
    ensures |r| >= 2 && r[0] == r[|r| - 1] && (r[0] == '\'' || r[0] == '"')
  {
    var quote := if '\'' in s && '"' !in s then '"' else '\'';
    [quote] + ReprBody(s, quote) + [quote]
  }

  /** A printable byte other than a quote or a backslash stands for itself. */
  predicate IsPlainReprChar(c: char)
  {
    ' ' <= c < '\U{7F}' && c != '\'' && c != '"' && c != '\\'
  }

  lemma {:induction false} ReprBodyPlain(s: string, quote: char)
    requires forall i :: 0 <= i < |s| ==> IsPlainReprChar(s[i])
    requires quote == '\'' || quote == '"'
    ensures ReprBody(s, quote) == s
  {
    if s != [] {
      ReprBodyPlain(s[1..], quote);
      assert s == [s[0]] + s[1..];
    }
  }

  /** A name made of plain bytes is shown between single quotes, unchanged. */
  lemma ReprPlain(s: string)
    requires forall i :: 0 <= i < |s| ==> IsPlainReprChar(s[i])
    ensures Repr(s) == "'" + s + "'"
  {
    ReprBodyPlain(s, '\'');
  }

  /** The text sent, as `text/plain`, when `key` has no argument: a comment
      holding the `repr` of the KeyError, then the template as it was read. */
  function KeyErrorPage(key: string, body: string): (page: string)
    ensures EndsWith(page, "\n" + body)
    ensures StartsWith(page, "<!-- ERROR: KeyError(")
  {
    var head := "<!-- ERROR: KeyError(" + Repr(key) + ",) -->\n";
    var page := head + body;
    assert page[|page| - |"\n" + body|..] == "\n" + body by {
      assert head == "<!-- ERROR: KeyError(" + Repr(key) + ",) -->" + "\n";
      assert page == ("<!-- ERROR: KeyError(" + Repr(key) + ",) -->") + ("\n" + body);
    }
    assert page[..|"<!-- ERROR: KeyError("|] == "<!-- ERROR: KeyError(" by {
      assert page == "<!-- ERROR: KeyError(" + (Repr(key) + ",) -->\n" + body);
    }
    page
  }

  /** For a plain name the comment reads `KeyError('name',)`. */
  lemma KeyErrorPagePlain(key: string, body: string)
    requires forall i :: 0 <= i < |key| ==> IsPlainReprChar(key[i])
    ensures KeyErrorPage(key, body) == "<!-- ERROR: KeyError('" + key + "',) -->\n" + body
  {
    ReprPlain(key);
  }
}
