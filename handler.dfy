/**
  The default request handler: splits the request path at `?`, handles the
  special URLs, falls back to `index.html` or a directory listing, fills in
  templates and otherwise serves the file, rewriting the request's URL and
  system paths in place as it goes.
 */
module Handler {
  import opened Wrappers
  import opened Text
  import opened FileSystem
  import opened PosixPath
  import opened Listing
  import opened Template
  import Options

  /** What the handler consults besides the request: the file system, the
      library's path translation, MIME guess and query parsing, and `--https`. */
  datatype Env = Env(
    fs: FileSystem,
    translate: string -> string,      // SimpleHTTPRequestHandler.translate_path
    guessType: string -> string,      // SimpleHTTPRequestHandler.guess_type
    parseQs: string -> Params,        // cgi.parse_qs
    https: bool)

  /** How a request ends. */
  datatype Outcome =
    | NotFound(message: string)                                  // send_error(404, message)
    | ServerInfo                                                 // webserver_info
    | SystemName                                                 // output of `uname -a`, as text/plain
    | DirectoryPage(syspath: string, urlpath: string, page: string)  // display_directory, as text/html
    | RawText(syspath: string, body: string)                     // a file behind '@', as text/plain
    | Exec(syspath: string, ctype: string)                       // a file behind '!' is run, its output sent as ctype
    | Rendered(syspath: string, body: string)                    // a filled-in template, as text/html
    | KeyMissing(syspath: string, body: string)                  // a template with a missing argument, as text/plain
    | Static(syspath: string, ctype: string, mode: string, body: string)
    | Crashed                                                    // an exception escapes the handler: no reply
    | Unmodelled                                                 // a template field beyond `{name}`

  // ---------------------------------------------------------------------
  // init: the query split

  /** The URL path: the text before the first `?`. */
  function UrlPath(path: string): (u: string)
    ensures '?' !in u && u <= path
    ensures '?' !in path ==> u == path
  {
    SplitPrefix(path);
    Split(path, '?')[0]
  }

  /** The query text: between the first and second `?`. */
  function QueryText(path: string): (q: string)
    requires '?' in path
    ensures '?' !in q
  {
    Split(path, '?')[1]
  }

  /** The parameters: parsed from the query text, none without a `?`. */
  function QueryParams(env: Env, path: string): Params
  {
    if '?' in path then env.parseQs(QueryText(path)) else map[]
  }

  lemma {:induction false} SplitPrefix(s: string)
    ensures Split(s, '?')[0] <= s
    ensures '?' !in s ==> Split(s, '?')[0] == s
    decreases |s|
  {
    if s != [] {
      SplitPrefix(s[1..]);
    }
  }

  /** The URL path and the query text are the first two `?`-separated parts
      of the path; whatever follows a second `?` is dropped. */
  lemma QuerySplit(env: Env, path: string)
    ensures '?' !in path ==> UrlPath(path) == path && QueryParams(env, path) == map[]
    ensures '?' in path ==>
      exists rest :: path == UrlPath(path) + "?" + QueryText(path) + rest && (rest == [] || rest[0] == '?')
  {
    if '?' in path {
      var parts := Split(path, '?');
      SplitJoin(path, '?');
      var rest := JoinWith(parts[2..], "?");
      if |parts| == 2 {
        assert path == parts[0] + "?" + parts[1] + [];
      } else {
        assert JoinWith(parts[1..], "?") == parts[1] + "?" + JoinWith(parts[2..], "?");
        assert path == parts[0] + "?" + parts[1] + ("?" + rest);
      }
    }
  }

  function Protocol(https: bool): (p: string)
    ensures p == "HTTPS" <==> https
    ensures p == "HTTP" <==> !https
  {
    if https then "HTTPS" else "HTTP"
  }

  // ---------------------------------------------------------------------
  // special_case

  predicate IsInfoPath(u: string)
  {
    u == "/webserver/info" || u == "/webserver/info/"
  }

  predicate IsSystemNamePath(u: string)
  {
    u == "/system/name" || u == "/system/name/"
  }

  /** `'@'` after a path: list a directory even if it has an index, show a file as text. */
  function AtOutcome(fs: FileSystem, syspath: string, urlpath: string): Outcome
  {
    if syspath !in fs then NotFound("Not found")
    else if IsDir(fs, syspath) then ListingOutcome(fs, syspath, urlpath)
    else if IsFile(fs, syspath) then
      match Read(fs, syspath)
      case Some(body) => RawText(syspath, body)
      case None => NotFound("Not found")
    else NotFound("Not found")
  }

  /** The body of the `'@'` rule, once the marker is dropped. */
  method ShowRaw(fs: FileSystem, syspath: string, urlpath: string) returns (o: Outcome)
    ensures o == AtOutcome(fs, syspath, urlpath)
  {
    if syspath !in fs {
      o := NotFound("Not found");
    } else if IsDir(fs, syspath) {
      var page := DisplayDirectory(fs, syspath, urlpath);
      o := if page.Some? then DirectoryPage(syspath, urlpath, page.value) else Crashed;
    } else if IsFile(fs, syspath) {
      var body := Read(fs, syspath);
      o := if body.Some? then RawText(syspath, body.value) else NotFound("Not found");
    } else {
      o := NotFound("Not found");
    }
  }

  /** The two fixed paths carry no marker. */
  lemma FixedPathsUnmarked(u: string)
    requires IsInfoPath(u) || IsSystemNamePath(u)
    ensures !HasMarker(u)
  {
    assert u[|u| - 1] == 'o' || u[|u| - 1] == 'e' || u[|u| - 1] == '/';
    assert u[|u| - 1..] == [u[|u| - 1]];
  }

  /** The type the output of a `!` path is sent as. */
  function ExecType(params: Params): (ctype: string)
    ensures "content-type" in params ==> ctype == params["content-type"][0]
    ensures "content-type" !in params ==> ctype == "text/plain"
  {
    if "content-type" in params then params["content-type"][0] else "text/plain"
  }

  /** `'!'` after a path: run the file, if it is one. */
  function BangOutcome(fs: FileSystem, syspath: string, params: Params): Outcome
  {
    if IsFile(fs, syspath) then Exec(syspath, ExecType(params))
    else NotFound("Not found: \"" + syspath + "\"")
  }

  /** The special cases, in the order they are tried; None when the path is
      an ordinary one. */
  function SpecialCaseOf(fs: FileSystem, urlpath: string, syspath: string, params: Params): Option<Outcome>
  {
    if IsInfoPath(urlpath) then Some(ServerInfo)
    else if IsSystemNamePath(urlpath) then Some(SystemName)
    else if EndsWith(urlpath, "@") then Some(AtOutcome(fs, DropLast(syspath), DropLast(urlpath)))
    else if EndsWith(urlpath, "!") then Some(BangOutcome(fs, DropLast(syspath), params))
    else None
  }

  predicate HasMarker(u: string)
  {
    EndsWith(u, "@") || EndsWith(u, "!")
  }

  // ---------------------------------------------------------------------
  // The main chain

  const IndexNames: seq<string> := ["index.html", "index.html"]

  /** The first index file present in a directory. */
  function IndexOf(fs: FileSystem, dir: string): (r: Option<string>)
    ensures r.Some? <==> Join(dir, "index.html") in fs
    ensures r.Some? ==> r.value == Join(dir, "index.html")
  {
    if Join(dir, "index.html") in fs then Some(Join(dir, "index.html")) else None
  }

  function ListingOutcome(fs: FileSystem, syspath: string, urlpath: string): Outcome
    requires IsDir(fs, syspath)
  {
    match ListingPage(fs, syspath, urlpath)
    case Some(page) => DirectoryPage(syspath, urlpath, page)
    case None => Crashed
  }

  /** A template: the file with every field filled in from the first value of
      its parameter, or the KeyError page. A file that cannot be read ends in
      an error inside the error handler itself. */
  function TemplateOutcome(fs: FileSystem, syspath: string, params: Params): Outcome
  {
    match Read(fs, syspath)
    case None => Crashed
    case Some(body) =>
      match Format(body, FirstValueMap(params))
      case Formatted(out) => Rendered(syspath, out)
      case MissingKey(k) => KeyMissing(syspath, KeyErrorPage(k, body))
      case FormatError => Crashed
      case Unsupported => Unmodelled
  }

  /** The guessed type, with shell scripts shown as plain text. */
  function ContentType(guessed: string): (ctype: string)
    ensures guessed == "application/x-sh" ==> ctype == "text/plain"
    ensures guessed != "application/x-sh" ==> ctype == guessed
  {
    if guessed == "application/x-sh" then "text/plain" else guessed
  }

  /** Text mode for text types, binary mode for the rest. */
  function OpenMode(ctype: string): (mode: string)
    ensures mode == "r" <==> StartsWith(ctype, "text/")
    ensures mode == "rb" <==> !StartsWith(ctype, "text/")
  {
    if StartsWith(ctype, "text/") then "r" else "rb"
  }

  function StaticOutcome(env: Env, syspath: string): Outcome
  {
    var ctype := ContentType(env.guessType(syspath));
    match Read(env.fs, syspath)
    case Some(body) => Static(syspath, ctype, OpenMode(ctype), body)
    case None => NotFound("File not found")
  }

  /** A file reached by the main chain: a template if the URL path says so. */
  function Serve(env: Env, urlpath: string, syspath: string, params: Params): Outcome
  {
    if EndsWith(urlpath, ".tmpl") then TemplateOutcome(env.fs, syspath, params) else StaticOutcome(env, syspath)
  }

  /** An ordinary path: 404, the directory's index or listing, or the file. */
  function Resolve(env: Env, urlpath: string, syspath: string, params: Params): Outcome
  {
    if syspath !in env.fs then NotFound("Not found")
    else if IsDir(env.fs, syspath) then
      match IndexOf(env.fs, syspath)
      case None => ListingOutcome(env.fs, syspath, urlpath)
      case Some(index) => Serve(env, urlpath, index, params)
    else Serve(env, urlpath, syspath, params)
  }

  /** The system path the main chain ends on: a directory's index file when
      it has one, the translated path otherwise. */
  function IndexedPath(fs: FileSystem, syspath: string): (p: string)
    ensures IsDir(fs, syspath) && Join(syspath, "index.html") in fs ==> p == Join(syspath, "index.html")
    ensures !IsDir(fs, syspath) || Join(syspath, "index.html") !in fs ==> p == syspath
  {
    if IsDir(fs, syspath) && IndexOf(fs, syspath).Some? then IndexOf(fs, syspath).value else syspath
  }

  /** The whole handler, from the raw path and the method. */
  function Dispatch(env: Env, path: string, command: string): Outcome
  {
    if command == "POST" then Crashed
    else
      var urlpath := UrlPath(path);
      var syspath := env.translate(urlpath);
      var params := QueryParams(env, path);
      match SpecialCaseOf(env.fs, urlpath, syspath, params)
      case Some(o) => o
      case None => Resolve(env, urlpath, syspath, params)
  }

  // ---------------------------------------------------------------------
  // The request whose fields the handler rewrites

  class Request {
    const path: string
    const command: string
    var urlpath: string
    var syspath: string
    var params: Params
    var protocol: string

    constructor(path: string, command: string)
      ensures this.path == path && this.command == command
      ensures urlpath == [] && syspath == [] && params == map[] && protocol == []
    {
      this.path := path;
      this.command := command;
      urlpath := [];
      syspath := [];
      params := map[];
      protocol := [];
    }

    /** init: sets the URL path, system path, parameters and protocol. A POST
        never gets there: its body parsing raises. */
    method Init(env: Env) returns (ok: bool)
      modifies this
      ensures ok <==> command != "POST"
      ensures ok ==> (urlpath == UrlPath(path) && syspath == env.translate(UrlPath(path))
                      && params == QueryParams(env, path) && protocol == Protocol(env.https))
      ensures !ok ==> (urlpath == old(urlpath) && syspath == old(syspath)
                       && params == old(params) && protocol == old(protocol))
    {
      var query: Params;
      var base: string;
      if '?' in path {
        var parts := Split(path, '?');
        query := env.parseQs(parts[1]);
        base := parts[0];
      } else {
        query := map[];
        base := path;
      }
      if command == "POST" {
        return false;
      }
      urlpath := base;
      syspath := env.translate(base);
      params := query;
      protocol := if env.https then "HTTPS" else "HTTP";
      ok := true;
    }

    /** special_case: a matching rule handles the request; for `@` and `!` it
        first drops the marker from both paths. */
    method SpecialCase(env: Env) returns (handled: bool, o: Outcome)
      modifies this
      ensures handled <==> SpecialCaseOf(env.fs, old(urlpath), old(syspath), old(params)).Some?
      ensures handled ==> o == SpecialCaseOf(env.fs, old(urlpath), old(syspath), old(params)).value
      ensures HasMarker(old(urlpath)) ==> urlpath == DropLast(old(urlpath)) && syspath == DropLast(old(syspath))
      ensures !HasMarker(old(urlpath)) ==> urlpath == old(urlpath) && syspath == old(syspath)
      ensures params == old(params) && protocol == old(protocol)
    {
      if IsInfoPath(urlpath) {
        FixedPathsUnmarked(urlpath);
        return true, ServerInfo;
      } else if IsSystemNamePath(urlpath) {
        FixedPathsUnmarked(urlpath);
        return true, SystemName;
      } else if EndsWith(urlpath, "@") {
        syspath := DropLast(syspath);
        urlpath := DropLast(urlpath);
        o := ShowRaw(env.fs, syspath, urlpath);
        return true, o;
      } else if EndsWith(urlpath, "!") {
        var ctype := if "content-type" in params then params["content-type"][0] else "text/plain";
        syspath := DropLast(syspath);
        urlpath := DropLast(urlpath);
        if IsFile(env.fs, syspath) {
          o := Exec(syspath, ctype);
        } else {
          o := NotFound("Not found: \"" + syspath + "\"");
        }
        return true, o;
      }
      return false, Crashed;
    }

    /** The index lookup: the first name of the list present in the directory. */
    method FindIndex(fs: FileSystem, dir: string) returns (sysfile: Option<string>)
      ensures sysfile == IndexOf(fs, dir)
    {
      sysfile := None;
      assert IndexNames[0] == "index.html" && IndexNames[1] == "index.html";
      var k := 0;
      while k < |IndexNames|
        invariant 0 <= k <= |IndexNames|
        invariant sysfile.None? ==> forall i :: 0 <= i < k ==> Join(dir, IndexNames[i]) !in fs
        invariant sysfile.Some? ==> sysfile == IndexOf(fs, dir)
      {
        var candidate := Join(dir, IndexNames[k]);
        if candidate in fs {
          sysfile := Some(candidate);
          break;
        }
        k := k + 1;
      }
    }

    /** template: applies exactly when the URL path ends in `.tmpl`. */
    method ApplyTemplate(env: Env) returns (applies: bool, o: Outcome)
      ensures applies <==> EndsWith(urlpath, ".tmpl")
      ensures applies ==> o == TemplateOutcome(env.fs, syspath, params)
    {
      if !EndsWith(urlpath, ".tmpl") {
        return false, Crashed;
      }
      var body := Read(env.fs, syspath);
      if body.None? {
        return true, Crashed;
      }
      var kwargs := FirstValues(params);
      var result := Format(body.value, kwargs);
      match result {
        case Formatted(out) => o := Rendered(syspath, out);
        case MissingKey(k) => o := KeyMissing(syspath, KeyErrorPage(k, body.value));
        case FormatError => o := Crashed;
        case Unsupported => o := Unmodelled;
      }
      return true, o;
    }

    /** The handler: init, the special cases, then the main chain. */
    method Handle(env: Env) returns (o: Outcome)
      modifies this
      ensures o == Dispatch(env, path, command)
      ensures command == "POST" ==> urlpath == old(urlpath) && syspath == old(syspath)
                                    && params == old(params) && protocol == old(protocol)
      ensures command != "POST" ==> params == QueryParams(env, path) && protocol == Protocol(env.https)
      ensures var u := UrlPath(path);
              command != "POST" && HasMarker(u) ==>
                urlpath == DropLast(u) && syspath == DropLast(env.translate(u))
      ensures var u := UrlPath(path);
              command != "POST" && (IsInfoPath(u) || IsSystemNamePath(u)) ==>
                urlpath == u && syspath == env.translate(u)
      ensures var u := UrlPath(path);
              command != "POST" && !HasMarker(u) && !IsInfoPath(u) && !IsSystemNamePath(u) ==>
                urlpath == u && syspath == IndexedPath(env.fs, env.translate(u))
    {
      var ok := Init(env);
      if !ok {
        return Crashed;
      }
      var handled, special := SpecialCase(env);
      if handled {
        return special;
      }
      o := MainChain(env);
    }

    /** The main chain, for a request no special case took: 404, the
        directory's index or listing, then a template or a static file. */
    method MainChain(env: Env) returns (o: Outcome)
      modifies this
      ensures o == Resolve(env, old(urlpath), old(syspath), old(params))
      ensures syspath == IndexedPath(env.fs, old(syspath))
      ensures urlpath == old(urlpath) && params == old(params) && protocol == old(protocol)
    {
      if syspath !in env.fs {
        return NotFound("Not found");
      }
      if IsDir(env.fs, syspath) {
        var sysfile := FindIndex(env.fs, syspath);
        if sysfile.None? {
          var page := DisplayDirectory(env.fs, syspath, urlpath);
          return if page.Some? then DirectoryPage(syspath, urlpath, page.value) else Crashed;
        }
        syspath := sysfile.value;
      }
      var applies, rendered := ApplyTemplate(env);
      if applies {
        return rendered;
      }
      var ctype := env.guessType(syspath);
      if ctype == "application/x-sh" {
        ctype := "text/plain";
      }
      var mode := if StartsWith(ctype, "text/") then "r" else "rb";
      var body := Read(env.fs, syspath);
      if body.None? {
        return NotFound("File not found");
      }
      return Static(syspath, ctype, mode, body.value);
    }
  }

  // ---------------------------------------------------------------------
  // The reply

  datatype Response = Response(status: nat, headers: seq<(string, string)>, body: string)

  /** send: status 200, the content type and the body's length. */
  function Send(ctype: string, out: string): (r: Response)
    ensures r.status == 200 && r.body == out
    ensures r.headers == [("Content-type", ctype), ("Content-length", IntString(|out|))]
  {
    Response(200, [("Content-type", ctype), ("Content-length", IntString(|out|))], out)
  }

  /** The reply to a request; None for outcomes whose body this model does
      not produce (program output, the information page) or that send nothing. */
  function Reply(o: Outcome): Option<Response>
  {
    match o
    case DirectoryPage(_, _, page) => Some(Send("text/html", page))
    case RawText(_, body) => Some(Send("text/plain", body))
    case Rendered(_, body) => Some(Send("text/html", body))
    case KeyMissing(_, body) => Some(Send("text/plain", body))
    case Static(_, ctype, _, body) => Some(Send(ctype, body))
    case _ => None
  }

  /** The Content-length header reads back as the length of the body. */
  lemma ContentLength(ctype: string, out: string)
    ensures Options.PythonInt(Send(ctype, out).headers[1].1) == Some(|out|)
  {
    Options.PythonIntOfIntString(|out|);
  }

  // ---------------------------------------------------------------------
  // What the dispatcher promises

  /** The information and system-name URLs win over everything else, whatever
      the query and whatever exists on disk. */
  lemma SpecialUrlsFirst(env: Env, path: string, command: string)
    requires command != "POST"
    ensures IsInfoPath(UrlPath(path)) ==> Dispatch(env, path, command) == ServerInfo
    ensures IsSystemNamePath(UrlPath(path)) ==> Dispatch(env, path, command) == SystemName
  {
  }

  /** A path that is not special and does not end in a marker is left to the
      main chain with its paths as `init` set them. */
  lemma OrdinaryPath(env: Env, path: string, command: string)
    requires command != "POST"
    requires !IsInfoPath(UrlPath(path)) && !IsSystemNamePath(UrlPath(path)) && !HasMarker(UrlPath(path))
    ensures Dispatch(env, path, command)
         == Resolve(env, UrlPath(path), env.translate(UrlPath(path)), QueryParams(env, path))
  {
  }

  /** `@` on a directory lists it, index file or not; on a readable file it
      shows the text; on anything missing it is a 404. */
  lemma AtMarker(env: Env, urlpath: string, syspath: string, params: Params)
    requires EndsWith(urlpath, "@")
    ensures var s := DropLast(syspath);
            var o := SpecialCaseOf(env.fs, urlpath, syspath, params);
            && o.Some?
            && (s !in env.fs ==> o.value == NotFound("Not found"))
            && (IsDir(env.fs, s) && ListingPage(env.fs, s, DropLast(urlpath)).Some? ==>
                  o.value == DirectoryPage(s, DropLast(urlpath), ListingPage(env.fs, s, DropLast(urlpath)).value))
            && (IsFile(env.fs, s) && Read(env.fs, s).Some? ==> o.value == RawText(s, Read(env.fs, s).value))
  {
    assert !IsInfoPath(urlpath) && !IsSystemNamePath(urlpath) by {
      assert urlpath[|urlpath| - 1] == '@' by { assert urlpath[|urlpath| - 1..] == "@"; }
    }
  }

  /** `!` runs a regular file with the first `content-type` value as its type,
      text/plain by default; anything else is a 404 naming the path. */
  lemma BangMarker(env: Env, urlpath: string, syspath: string, params: Params)
    requires EndsWith(urlpath, "!")
    ensures var s := DropLast(syspath);
            var o := SpecialCaseOf(env.fs, urlpath, syspath, params);
            && o.Some?
            && (IsFile(env.fs, s) ==> o.value == Exec(s, ExecType(params)))
            && (!IsFile(env.fs, s) ==> o.value == NotFound("Not found: \"" + s + "\""))
  {
    assert !IsInfoPath(urlpath) && !IsSystemNamePath(urlpath) && !EndsWith(urlpath, "@") by {
      assert urlpath[|urlpath| - 1] == '!' by { assert urlpath[|urlpath| - 1..] == "!"; }
    }
  }

  /** The main chain: a missing path is a 404; a directory is replaced by its
      index file, with the URL path kept, or listed when it has none. */
  lemma MainChain(env: Env, urlpath: string, syspath: string, params: Params)
    ensures syspath !in env.fs ==> Resolve(env, urlpath, syspath, params) == NotFound("Not found")
    ensures IsDir(env.fs, syspath) && Join(syspath, "index.html") in env.fs ==>
              Resolve(env, urlpath, syspath, params) == Serve(env, urlpath, Join(syspath, "index.html"), params)
    ensures IsDir(env.fs, syspath) && Join(syspath, "index.html") !in env.fs ==>
              Resolve(env, urlpath, syspath, params) == ListingOutcome(env.fs, syspath, urlpath)
  {
  }

  /** Only a URL path ending in `.tmpl` is treated as a template, and such a
      path is never served statically. */
  lemma TemplateOnlyForTmpl(env: Env, urlpath: string, syspath: string, params: Params)
    ensures Serve(env, urlpath, syspath, params).Rendered? || Serve(env, urlpath, syspath, params).KeyMissing?
            ==> EndsWith(urlpath, ".tmpl")
    ensures Serve(env, urlpath, syspath, params).Static? ==> !EndsWith(urlpath, ".tmpl")
  {
  }

  /** A template is filled in exactly when it is complete and every field in
      it has a parameter; otherwise the first field without one is reported
      over the unchanged text. */
  lemma TemplateSubstitution(fs: FileSystem, syspath: string, params: Params)
    requires Read(fs, syspath).Some?
    ensures var body := Read(fs, syspath).value;
            var parsed := Parse(body);
            && (TemplateOutcome(fs, syspath, params).Rendered?
                <==> parsed.ending == Complete && forall n :: n in FieldNames(parsed.pieces) ==> n in params)
            && (TemplateOutcome(fs, syspath, params).Rendered? ==>
                  TemplateOutcome(fs, syspath, params).body == Format(body, FirstValueMap(params)).text)
            && (forall k :: Format(body, FirstValueMap(params)) == MissingKey(k) ==>
                  k !in params && TemplateOutcome(fs, syspath, params) == KeyMissing(syspath, KeyErrorPage(k, body)))
  {
    var body := Read(fs, syspath).value;
    var kwargs := FirstValueMap(params);
    FormatIsRender(body, kwargs);
    RenderFormattedIff(Parse(body).pieces, Parse(body).ending, kwargs);
    forall k | Format(body, kwargs) == MissingKey(k) ensures k !in params {
      RenderMissingKey(Parse(body).pieces, Parse(body).ending, kwargs, k);
    }
  }

  /** Static serving: shell scripts go out as text/plain and other types as
      guessed; text types are read in text mode; an unreadable file is a 404;
      the reply is a 200 whose Content-length is the body's length. */
  lemma StaticServing(env: Env, syspath: string)
    ensures var o := StaticOutcome(env, syspath);
            && (Read(env.fs, syspath).None? <==> o == NotFound("File not found"))
            && (o.Static? ==>
                  && o.body == Read(env.fs, syspath).value
                  && (env.guessType(syspath) == "application/x-sh" ==> o.ctype == "text/plain")
                  && (env.guessType(syspath) != "application/x-sh" ==> o.ctype == env.guessType(syspath))
                  && (o.mode == "r" <==> StartsWith(o.ctype, "text/"))
                  && Reply(o).Some? && Reply(o).value.status == 200
                  && Options.PythonInt(Reply(o).value.headers[1].1) == Some(|o.body|))
  {
    var o := StaticOutcome(env, syspath);
    if o.Static? {
      ContentLength(o.ctype, o.body);
    }
  }

  /** Every request with the POST method fails before any reply. */
  lemma PostFails(env: Env, path: string)
    ensures Dispatch(env, path, "POST") == Crashed
  {
  }
}
