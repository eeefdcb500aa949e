# webserver — a Dafny model of the request dispatcher and its helpers

`webserver.py` is a small Python 2.7 HTTP server. Its behaviour sits in a
plug-in request handler. `default_request_handler` in `webserver.py` is the
built-in handler, and `www/plugins/default.py` is the same handler as
`generate` writes it out, renamed to `request_handler`. This project models
that handler and the pieces of the server around it:

- **`init`**: splits the request path at `?`, asks the library for the system
  path and the query parameters, and records the protocol (`HTTP`/`HTTPS`).
- **`special_case`**:
  - `/webserver/info` and `/system/name` are answered directly;
  - a trailing `@` lists a directory or shows a file as plain text;
  - a trailing `!` runs a file.
  The `@` and `!` markers are first stripped from both the URL path and the
  system path.
- **The main chain**:
  - a missing path is a 404;
  - a directory is served through its `index.html`, or listed when it has none;
  - a URL path ending in `.tmpl` is filled in as a template;
  - anything else is served with a guessed content type, in text or binary
    mode.
- **`display_directory`**: the HTML listing. It has a `..` row except at `/`,
  then the entries sorted case-insensitively, each with its size, its kind and
  its link.
- **`escape_text`**: HTML escaping of `& " ' > <`.
- **`template`**: `str.format(**kwargs)` with the first value of every query
  parameter. A field that has no argument gets the `KeyError` page instead.
- **`send`**: status 200, `Content-type` and `Content-length`, then the body.
- **The value checkers** of `getopts` that look at the text alone:
  `entry_obj`, `port_opt` and `log_size_opt`.
- **`ws_get_url_prefix`**: `scheme://host:port`.
- **`generate`**: prints the handler's own source as a plug-in module.

Modules and files:

- `text.dfy`: the Python 2 `str` operations used throughout (`int`/`str` of
  integers, `lower`, `strip`, `split`, `join`, `replace`, padding).
- `options.dfy`: the value checkers.
- `html.dfy`: `escape_text`.
- `template.dfy`: the subset of `str.format` the templates use, and the
  `KeyError` page.
- `paths.dfy`: `posixpath.dirname` and `posixpath.join`.
- `filesystem.dfy`: the file system as a map from system paths to nodes.
- `listing.dfy`: `display_directory`.
- `handler.dfy`: the dispatcher.
  - The request is a `class Request`. Its methods rewrite the URL path, the
    system path and the parameters in place, as the Python code does with
    `req.m_*`.
  - `Request.Handle` is proved equal to the specification function
    `Dispatch`, and its contract states the fields it leaves behind. The
    lemmas about the dispatcher are stated on `Dispatch`.
- `server.dfy`: `ws_get_url_prefix`.
- `generator.dfy`: `generate`.

The handler's environment is passed in as values: the file system, and the
library's `translate_path`, `guess_type` and `cgi.parse_qs` as uninterpreted
functions. Each request ends in an `Outcome`, which says:

- which page goes out, with its type and body where the model computes them;
- or that a 404 is sent, with its message;
- or that an exception escapes the handler (`Crashed`).

Two places where the handler's own code differs from its description:

- **Templates.** A file is treated as a template when the *URL path* ends in
  `.tmpl`. The system path is not consulted. So the `index.html` served for a
  directory is filled in exactly when the directory's URL path ends in
  `.tmpl`: `/d.tmpl` names a directory `d.tmpl` whose `index.html` is then
  treated as a template. A `.tmpl` file that a `@` marker displays is
  not filled in either, because the special cases come first. The model
  follows the code.
- **The `..` link.** The link is `os.path.dirname` of the URL path. The code
  tests whether the path ends in `/` but computes the same name either way.
  So for `/sub/` the `..` line links to `/sub`, which is the same directory
  (`Listing.ParentOfTrailingSlash`).
- **Index files.** The list of index files is `['index.html', 'index.html']`.
  The same name is tried twice, so in effect only `index.html` is looked for.

## Model

| member | source | states |
|---|---|---|
| Text.DecimalRoundTrip | webserver.py:313 | reading back the decimal spelling of a natural number gives that number |
| Text.SplitJoin | www/plugins/default.py:72-75 | joining the parts of `split('?')` with `?` gives back the original path |
| Text.LessTotal | www/plugins/default.py:157 | the byte order used for sorting relates any two different names |
| Text.LessTransitive | www/plugins/default.py:157 | the byte order used for sorting is transitive |
| Text.RStrip | webserver.py:1187 | `rstrip` returns a prefix with no trailing whitespace, and everything it cut was whitespace |
| Text.Split | www/plugins/default.py:73 | `split('?')` yields at least one part; it yields two or more exactly when the path holds a `?`; no part holds a `?` |
| Options.EntryObj | webserver.py:224-231 | the value is accepted exactly when it is a name (a letter or underscore, then letters, digits and underscores), optionally followed by one final newline that `$` lets through; it is kept unchanged; a refusal carries "Not a valid python function name." |
| Options.EntryObjExtends | webserver.py:229-231 | after a valid name, one more character is accepted exactly when it is a letter, digit or underscore, or the final newline that `$` lets through |
| Options.PythonIntOfIntString | webserver.py:312-313 | Python's `int` reads back what `str` writes, for every integer |
| Options.PortOpt | webserver.py:307-318 | accepted exactly when `int` succeeds and 1 < port < 65535, with that integer; the refusal message tells a non-integer from an out-of-range value |
| Options.PortOptOfNumeral | webserver.py:312-316 | a numeral is accepted exactly when its value lies strictly between 1 and 65535 |
| Options.PortRangeEndsRefused | webserver.py:314-316 | as written, "1" and "65535" are refused with the out-of-range message, although the message names [1..65535] |
| Options.PortOptInclusive | webserver.py:307-318 | the corrected check: an accepted port is the integer `int` reads |
| Options.PortOptInclusiveOfNumeral | webserver.py:308-316 | the corrected check accepts a numeral exactly when its value is in 1..65535, and it disagrees with the check as written only on 1 and 65535 |
| Options.SizeMatchComplete | webserver.py:277 | every well-formed size literal is matched group by group, with or without a final newline |
| Options.SizeMatchSound | webserver.py:277-279 | whatever the pattern matches is a well-formed literal spelling the value, possibly followed by a newline |
| Options.LogSizeOpt | webserver.py:261-295 | refused with the "Invalid format" message exactly when the pattern fails; an integer literal gives its digits times 1, 2^10, 2^20 or 2^30 for no suffix, k, m or g; a literal with a fraction is reported as such |
| Options.SuffixScales | webserver.py:286-291 | the digits followed by k, m or g are 1024, 1048576 or 1073741824 times the bare digits |
| Options.LogSizeExamples | webserver.py:269-271 | "1048576" and "1m" are matched as the documented literals |
| Options.LogSizeExampleValues | webserver.py:268-275 | the documented values: 1048576, 1m and 1024k are 1048576 bytes; 1024m and 1g are 1073741824 bytes |
| Options.LogSizeRejections | webserver.py:277-279 | "10M" (upper-case suffix), "m" (no digits) and "" are refused |
| Html.Entity | www/plugins/default.py:178-183 | a special character becomes an entity `&…;`; any other character stays as it is |
| Html.EscapeText | www/plugins/default.py:174-183 | the output is never shorter than the input |
| Html.EscapeTextNoMarkup | www/plugins/default.py:174-183 | the escaped text holds no `<`, `>`, `"` or `'` |
| Html.EscapeTextPlain | www/plugins/default.py:178-183 | text without any of the five special characters comes out unchanged |
| Html.UnescapeEscapeText | www/plugins/default.py:174-183 | decoding the five entities recovers the text exactly, so escaping loses nothing |
| Html.EscapeTextAppend | www/plugins/default.py:183 | escaping works character by character: it distributes over concatenation |
| Html.UnescapeEntity | www/plugins/default.py:178-183 | each character's replacement decodes back to that character, whatever follows it |
| Html.EscapeTextExample | www/plugins/default.py:178-182 | `<a&b>` becomes `&lt;a&amp;b&gt;` |
| Template.FindClose | www/plugins/default.py:352 | finds the first `}` of the text, or reports there is none |
| Template.FormatIsRender | www/plugins/default.py:352 | the left-to-right scan of `format` equals cutting the template into literals and fields and then substituting them in order |
| Template.FieldNames | www/plugins/default.py:352 | a name is listed exactly when the template has a field of that name |
| Template.RenderFormattedIff | www/plugins/default.py:352-353 | substitution succeeds exactly when the template is well formed and every field has an argument |
| Template.RenderMissingKey | www/plugins/default.py:352-356 | a `KeyError` names exactly the first field, in template order, that has no argument |
| Template.FormatWithoutBraces | www/plugins/default.py:352 | text without braces comes out unchanged |
| Template.FormatLiteralPrefix | www/plugins/default.py:352 | text without braces in front of a template is copied in front of the result |
| Template.FormatField | www/plugins/default.py:352 | a `{name}` field becomes its argument, or raises a `KeyError` naming it |
| Template.FormatFieldThenText | www/plugins/default.py:352 | a field followed by text without braces gives its argument and then the text, or a `KeyError` naming the field |
| Template.FormatOneField | www/plugins/default.py:352 | one field with an argument, between texts without braces, is replaced by that argument and the texts are kept |
| Template.FormatOneFieldMissing | www/plugins/default.py:352-356 | one field without an argument raises a `KeyError` naming it, whatever text surrounds it |
| Template.FormatExample | www/plugins/default.py:317-352 | `<b>{title}</b>` with a `title` argument gives `<b>`, the argument, then `</b>` |
| Template.FormatMissingExample | www/plugins/default.py:352-356 | `<b>{title}</b>` without a `title` argument raises `KeyError('title')` |
| Template.FormatEscapedBraces | www/plugins/default.py:352 | `{{title}}` gives the literal `{title}`, whatever the arguments |
| Template.FirstValueMap | www/plugins/default.py:348-351 | one keyword argument per parameter, holding that parameter's first value |
| Template.FirstValues | www/plugins/default.py:348-351 | the loop over the parameters builds exactly that map |
| Template.Repr | www/plugins/default.py:360 | `repr` of a str is quoted the same way at both ends, with `'` or `"` |
| Template.ReprPlain | www/plugins/default.py:360 | a name made of printable characters other than quotes and backslash is shown between single quotes, unchanged |
| Template.KeyErrorPage | www/plugins/default.py:360 | the error page starts with the `<!-- ERROR: KeyError(` comment and ends with a newline and the template text exactly as it was read |
| Template.KeyErrorPagePlain | www/plugins/default.py:360 | for a plain name the page is `<!-- ERROR: KeyError('name',) -->`, a newline, then the template |
| PosixPath.HeadLength | www/plugins/default.py:150-151 | the head ends at the last slash, and no slash comes after it |
| PosixPath.RStripSlashes | www/plugins/default.py:150-151 | strips exactly the trailing slashes |
| PosixPath.Dirname | www/plugins/default.py:150-151 | the directory is a prefix of the path, and it is empty when the path has no slash |
| PosixPath.DirnameOfJoin | www/plugins/default.py:158 | joining a directory with a plain name gives `dir/name`, and the name's directory is `dir` again |
| PosixPath.DirnameExamples | www/plugins/default.py:149-151 | the `..` link: `/a/b` goes to `/a`, `/a` goes to `/`, `/` stays `/`; `/a/b/` goes to `/a/b`, because only the trailing slash is cut |
| PosixPath.DirnameOfTrailingSlash | www/plugins/default.py:149-151 | for a URL path ending in `/`, the parent is the path without its trailing slashes |
| FileSystem.Read | www/plugins/default.py:409-410 | a read succeeds only on an existing path that is not a directory |
| Listing.NotAfterTransitive | www/plugins/default.py:157 | the case-insensitive order is transitive |
| Listing.NotAfterTotal | www/plugins/default.py:157 | the case-insensitive order relates any two names |
| Listing.Insert | www/plugins/default.py:157 | inserting adds exactly one name and keeps all the others |
| Listing.InsertSorted | www/plugins/default.py:157 | inserting into a list sorted by `str.lower` keeps it sorted |
| Listing.SortByKey | www/plugins/default.py:157 | `sorted(..., key=str.lower)` is a permutation of the entries, sorted case-insensitively |
| Listing.FormatRow | www/plugins/default.py:155-165 | a row line ends with the link `<a href="href">name</a>` |
| Listing.ParentRow | www/plugins/default.py:148-155 | the `..` row has size 0 and kind `dir`, and links to `os.path.dirname` of the URL path |
| Listing.ParentOfTrailingSlash | www/plugins/default.py:149-151 | for a URL path ending in `/`, the `..` link is that path without its trailing slashes, that is, the same directory |
| Listing.Href | www/plugins/default.py:161-164 | the link starts with the URL path and ends with the name, with exactly one `/` added when the URL path lacks one |
| Listing.EntryRow | www/plugins/default.py:157-165 | an entry's row carries its name, its link, the size of the joined system path, and `dir` exactly for directories |
| Listing.Header | www/plugins/default.py:135-144 | nine header lines; the last is the system path followed by a newline |
| Listing.ListingPage | www/plugins/default.py:129-171 | a page is produced exactly when the rows can be computed |
| Listing.AppendEntryLines | www/plugins/default.py:157-165 | the loop appends one formatted row per entry, and fails exactly when an entry is missing from the file system |
| Listing.DisplayDirectory | www/plugins/default.py:129-171 | the lines built step by step, joined with newlines, are exactly the listing page |
| Listing.ParentLineIff | www/plugins/default.py:146-155 | a `..` row comes first exactly when the URL path is not `/`; every entry of the directory gets one row |
| Listing.EntryLines | www/plugins/default.py:157-165 | the entry rows name every entry exactly once, in case-insensitive order, each linking to its `Href` |
| Listing.ListingFailsIff | www/plugins/default.py:146-161 | the listing raises exactly for an empty URL path (`urlpath[-1]`) or for an entry whose size cannot be read |
| Listing.HrefIsJoin | www/plugins/default.py:161-164 | an entry's link is `posixpath.join` of the URL path and the name, and the directory of that link is the URL path again |
| Handler.UrlPath | www/plugins/default.py:72-78 | the URL path holds no `?` and is a prefix of the request path; without a `?` it is the whole path |
| Handler.QueryText | www/plugins/default.py:73-74 | the query text holds no `?` |
| Handler.QuerySplit | www/plugins/default.py:72-78 | without a `?` the URL path is the whole path and there are no parameters; with one, the path is the URL path, `?`, the query text, then nothing or text from a second `?` on, which is dropped |
| Handler.Protocol | www/plugins/default.py:97 | `HTTPS` exactly with `--https`, `HTTP` otherwise |
| Handler.ExecType | www/plugins/default.py:291-294 | the first `content-type` parameter when there is one, `text/plain` otherwise |
| Handler.IndexOf | www/plugins/default.py:381-386 | an index is found exactly when `dir/index.html` exists, and it is that path |
| Handler.ContentType | www/plugins/default.py:401-403 | `application/x-sh` is sent as `text/plain`; every other guessed type is kept |
| Handler.OpenMode | www/plugins/default.py:408 | text mode exactly for `text/` types, binary mode otherwise |
| Handler.Request.constructor | www/plugins/default.py:10 | a request holds its raw path and method, with nothing derived yet |
| Handler.Request.Init | www/plugins/default.py:61-101 | a POST fails and leaves the fields unchanged; any other request gets the URL path, the translated system path, the query parameters and the protocol |
| Handler.Request.SpecialCase | www/plugins/default.py:244-304 | handles the request exactly when `SpecialCaseOf` has an outcome, and gives that outcome; for `@` and `!` it drops the last character of both paths, and otherwise leaves them alone |
| Handler.Request.FindIndex | www/plugins/default.py:381-386 | the loop over the index names finds exactly `IndexOf` |
| Handler.Request.ApplyTemplate | www/plugins/default.py:339-362 | applies exactly when the URL path ends in `.tmpl`, and then gives the template outcome |
| Handler.Request.Handle | www/plugins/default.py:364-413 | the handler, rewriting the request step by step, ends in exactly the outcome of the specification function `Dispatch`; a POST leaves the fields alone; otherwise the parameters and protocol are those of the request, and the URL and system paths are the query-less path and its translation, without the last character after a `@` or `!`, and with the system path moved to the directory's index file on the main chain |
| Handler.Request.MainChain | www/plugins/default.py:374-413 | the main chain ends in exactly `Resolve` of the paths and parameters it started from; the system path becomes the directory's index file when there is one, and nothing else changes |
| Handler.IndexedPath | www/plugins/default.py:378-394 | the system path after the index lookup: `dir/index.html` when the path is a directory holding one, the path itself otherwise |
| Handler.Send | www/plugins/default.py:111-127 | status 200, headers `Content-type` and `Content-length` in that order, and the body as given |
| Handler.ContentLength | www/plugins/default.py:117 | the `Content-length` header reads back as the length of the body |
| Handler.SpecialUrlsFirst | www/plugins/default.py:249-261 | `/webserver/info[/]` and `/system/name[/]` are answered whatever the query and the file system |
| Handler.OrdinaryPath | www/plugins/default.py:367-376 | a path that is not special and carries no marker goes to the main chain with the paths as `init` set them |
| Handler.ShowRaw | www/plugins/default.py:270-282 | the body of the `@` rule computes exactly `AtOutcome`: a 404 for a missing path, the listing of a directory, the text of a readable file, a 404 otherwise |
| Handler.AtMarker | www/plugins/default.py:262-283 | `@`: a missing path is a 404; a directory is listed, index or not; a readable file is shown as text |
| Handler.BangMarker | www/plugins/default.py:284-303 | `!`: a regular file is run and its output sent with `ExecType`; anything else is a 404 naming the stripped system path |
| Handler.MainChain | www/plugins/default.py:374-394 | a missing path is a 404; a directory with `index.html` serves that file under the same URL path; one without it is listed |
| Handler.TemplateOnlyForTmpl | www/plugins/default.py:339-398 | only a URL path ending in `.tmpl` is filled in, and such a path is never served as a static file |
| Handler.TemplateSubstitution | www/plugins/default.py:345-361 | a readable template is filled in exactly when it is well formed and every field has a parameter, and the result is `format`'s text; otherwise the missing name has no parameter and the `KeyError` page is sent |
| Handler.StaticServing | www/plugins/default.py:400-413 | an unreadable file is a 404 "File not found"; otherwise the body is the file, shell scripts go out as `text/plain`, text mode is used exactly for `text/` types, and the 200 reply's `Content-length` is the body's length |
| Handler.PostFails | www/plugins/default.py:80-94 | every POST ends in an exception before any reply |
| Server.Scheme | webserver.py:1116 | `https` exactly with `--https`, `http` otherwise |
| Server.UrlPrefix | webserver.py:1117 | the prefix is `scheme://host:` followed by the port's decimal spelling |
| Server.SchemeOfPrefix | webserver.py:1109-1118 | the prefix starts `https://` exactly when the server runs with `--https`, and `http://` otherwise |
| Server.PortOfPrefix | webserver.py:1117 | the port at the end of the prefix reads back as the configured port; a port the corrected check accepts is spelled with digits only |
| Server.DefaultPrefix | webserver.py:1113 | the default configuration gives `http://localhost:8080` |
| Generator.Generate | webserver.py:1175-1205 | prints nothing without `--generate`; otherwise prints exactly `EmittedFrom` of the source lines |
| Generator.RStripAll | webserver.py:1187 | each copied line is the source line without its trailing whitespace |
| Generator.NothingBeforeHandler | webserver.py:1185-1203 | lines before the handler's `def` print nothing |
| Generator.CopiesBody | webserver.py:1200-1203 | while copying, every line that does not start a `def` is printed, right-stripped |
| Generator.HandlerIsDef | webserver.py:1188-1200 | the handler's first line also starts a definition |
| Generator.ExtractsHandler | webserver.py:1185-1203 | the printed module is the fixed header, the renamed `def`, then the handler's body up to the next top-level `def`, each line right-stripped |
| Generator.RenamedStart | webserver.py:1188-1189 | the first copied line defines `request_handler` |
| Generator.NoTrailingWhitespace | webserver.py:1187-1203 | no printed line ends in whitespace |

## Left out

- Sockets, threading, logging, daemonising, the PID file and TLS are not modelled; nor are the `log_file_opt`, `pid_file_opt`, `plugin_opt`, `webdir_opt` and `cert_opt` checkers, which consult the file system. They are outside the handler's logic.
- `webserver_info` and `runcmd` are not modelled: their output depends on the host and on running programs. The outcomes `ServerInfo`, `SystemName` and `Exec` say which page is sent, not what it holds.
- `Handler.Request.Init`: the POST branch is modelled as failing, without reading the body. It asserts the parameters are empty and then refers to an undefined `self`, so every POST raises. The multipart and url-encoded parsing before that point is not modelled.
- `Handler.Send`: every `Outcome` assumes a request without cookies. When the request carries a Cookie header, `send` raises NameError (it refers to an undefined `self`) after the status line and the headers, so no body is sent whatever the `Outcome` says. The `Set-Cookie` headers are not modelled either.
- `translate_path`, `guess_type` and `cgi.parse_qs` are parameters of the model, not definitions. `os.listdir` and `os.path.getsize` are read from the file-system map.
- `send_error` pages are modelled by their status and message only, not their HTML body.
- `Template.Format`: only `{name}` fields and the `{{`/`}}` escapes are modelled.
  - A field with a conversion, a format spec, an attribute, an index or a nested field ends in `Unmodelled`.
  - A lone brace or a positional field raises; this is modelled as `Crashed`.
- `Options.LogSizeOpt`: a literal with a fraction (`1.3g`) is computed in floating point. The model reports it as `Fractional` with its literal and does not compute the byte count.
- `Options.LogSizeOpt`: the source passes even integer sizes through `float`, so a count above 2^53 is rounded, and a numeral too large for a double (a product of 2^1024 or more, such as `1` followed by 309 zeros) makes `float` raise OverflowError, which argparse does not catch, so the program exits with a traceback. The model keeps the exact product and does not capture the rounding or the crash.
- `Handler.SpecialCaseOf`: the special-case regexes end in `$`, which Python also lets match before a final newline. The model tests the last character of the URL path. A URL path reaching the handler does not end in a newline, because the request line is split on whitespace.
- `Listing.SortByKey`: it is proved to be a permutation in case-insensitive order. That `sorted` is stable, so names differing only in case keep their `os.listdir` order, is not proved. The `os.listdir` order is not modelled either: each directory's entries are a given sequence in an arbitrary order.
- `Listing.ListingFailsIff`: its "exactly" holds within the file-system model, where a `Dir` always lists its entries. `os.listdir` raising OSError (a directory without read permission) is not expressible there.
- `PosixPath.Join`: its contract states only that the result is at least as long as the name. `Listing.HrefIsJoin` and `PosixPath.DirnameOfJoin` state what the join gives for the paths the listing builds.
- The listing writes names and links into the HTML without escaping them, as the source does.
- `Generator.Generate`: reading `sys.argv[0]` and the final `sys.exit(0)` are not modelled. The source lines are a parameter, and the printed lines are the result.
- Plug-in loading and `argparse` itself are not modelled.

## Findings

| source | as written | input that shows it | evidently intended | confidence | as-written member | corrected member |
|---|---|---|---|---|---|---|
| webserver.py:314 | `if 1 < ival < 65535` accepts only 2..65534 | `--port 1` and `--port 65535` are refused with "Must be an integer in the range: [1..65535]." | `1 <= ival <= 65535`, as the docstring and both messages state | high (not executed) | Options.PortRangeEndsRefused | Options.PortOptInclusiveOfNumeral |
