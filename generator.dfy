/**
  `generate`: writes the default handler out as a plugin module by copying
  its own source, from the line that starts the handler up to the next
  top-level definition, under a fixed header and with the handler renamed.
 */
module Generator {
  import opened Text

  const Start := "def default_request_handler"
  const Renamed := "def request_handler"
  const NextDef := "def "

  /** The docstring and imports printed before the handler. */
  const Header: seq<string> := [
    "'''", "# Default request handler.", "'''",
    "import cgi", "import mimetypes", "import os", "import re", "import subprocess",
    ""]

  predicate NoTrailingSpace(line: string)
  {
    line == [] || !IsSpace(line[|line| - 1])
  }

  /** What the rest of the source prints, given whether the handler is being copied. */
  function EmittedFrom(lines: seq<string>, copying: bool): seq<string>
  {
    if lines == [] then []
    else
      var line := RStrip(lines[0]);
      if StartsWith(line, Start) then
        Header + [ReplaceAll(line, Start, Renamed)] + EmittedFrom(lines[1..], true)
      else if StartsWith(line, NextDef) then EmittedFrom(lines[1..], false)
      else (if copying then [line] else []) + EmittedFrom(lines[1..], copying)
  }

  /** The `for line in lines` loop with its `flag`, printing as it goes; nothing
      at all unless --generate was given. */
  method Generate(generate: bool, lines: seq<string>) returns (output: seq<string>)
    ensures !generate ==> output == []
    ensures generate ==> output == EmittedFrom(lines, false)
  {
    output := [];
    if !generate {
      return;
    }
    var flag := false;
    var k := 0;
    while k < |lines|
      invariant 0 <= k <= |lines|
      invariant output + EmittedFrom(lines[k..], flag) == EmittedFrom(lines, false)
    {
      assert lines[k..][1..] == lines[k + 1..];
      var line := RStrip(lines[k]);
      if StartsWith(line, Start) {
        line := ReplaceAll(line, Start, Renamed);
        flag := true;
        output := output + Header;
      } else if StartsWith(line, NextDef) {
        flag := false;
      }
      if flag {
        output := output + [line];
      }
      k := k + 1;
    }
  }

  // ---------------------------------------------------------------------
  // What the generated module holds

  predicate StartsHandler(line: string) { StartsWith(RStrip(line), Start) }
  predicate StartsDef(line: string) { StartsWith(RStrip(line), NextDef) }

  function RStripAll(lines: seq<string>): (r: seq<string>)
    ensures |r| == |lines| && forall i :: 0 <= i < |lines| ==> r[i] == RStrip(lines[i])
  {
    seq(|lines|, i requires 0 <= i < |lines| => RStrip(lines[i]))
  }

  lemma {:induction false} NothingBeforeHandler(pre: seq<string>, rest: seq<string>)
    requires forall i :: 0 <= i < |pre| ==> !StartsHandler(pre[i])
    ensures EmittedFrom(pre + rest, false) == EmittedFrom(rest, false)
  {
    if pre != [] {
      assert (pre + rest)[1..] == pre[1..] + rest;
      NothingBeforeHandler(pre[1..], rest);
    } else {
      assert pre + rest == rest;
    }
  }

  lemma {:induction false} CopiesBody(body: seq<string>, rest: seq<string>)
    requires forall i :: 0 <= i < |body| ==> !StartsDef(body[i])
    ensures EmittedFrom(body + rest, true) == RStripAll(body) + EmittedFrom(rest, true)
  {
    if body != [] {
      assert (body + rest)[1..] == body[1..] + rest;
      HandlerIsDef(RStrip(body[0]));
      CopiesBody(body[1..], rest);
      assert RStripAll(body) == [RStrip(body[0])] + RStripAll(body[1..]);
    } else {
      assert body + rest == rest;
    }
  }

  /** The handler's own first line starts a definition too. */
  lemma HandlerIsDef(line: string)
    ensures StartsWith(line, Start) ==> StartsWith(line, NextDef)
  {
    if StartsWith(line, Start) {
      assert line[..4] == line[..|Start|][..4];
    }
  }

  lemma HandlerLine(first: string, rest: seq<string>, copying: bool)
    requires StartsHandler(first)
    ensures EmittedFrom([first] + rest, copying)
         == Header + [ReplaceAll(RStrip(first), Start, Renamed)] + EmittedFrom(rest, true)
  {
    assert ([first] + rest)[1..] == rest;
  }

  lemma NextDefinition(next: string, rest: seq<string>, copying: bool)
    requires StartsDef(next) && !StartsHandler(next)
    ensures EmittedFrom([next] + rest, copying) == EmittedFrom(rest, false)
  {
    assert ([next] + rest)[1..] == rest;
  }

  /** The module printed: the header, the handler's first line renamed, its
      body up to the next line starting `def `, each line without trailing
      whitespace; nothing before the handler is printed and the next
      definition stops the copy. */
  lemma ExtractsHandler(pre: seq<string>, first: string, body: seq<string>, next: string, post: seq<string>)
    requires forall i :: 0 <= i < |pre| ==> !StartsHandler(pre[i])
    requires StartsHandler(first)
    requires forall i :: 0 <= i < |body| ==> !StartsDef(body[i])
    requires StartsDef(next) && !StartsHandler(next)
    ensures EmittedFrom(pre + [first] + body + [next] + post, false)
         == Header + [ReplaceAll(RStrip(first), Start, Renamed)] + RStripAll(body) + EmittedFrom(post, false)
  {
    var tail := [next] + post;
    var fromFirst := [first] + (body + tail);
    var renamed := ReplaceAll(RStrip(first), Start, Renamed);
    assert pre + [first] + body + [next] + post == pre + fromFirst;
    NothingBeforeHandler(pre, fromFirst);
    HandlerLine(first, body + tail, false);
    CopiesBody(body, tail);
    NextDefinition(next, post, true);
    var afterBody := EmittedFrom(post, false);
    assert EmittedFrom(fromFirst, false) == Header + [renamed] + (RStripAll(body) + afterBody);
  }

  /** The first copied line names the handler `request_handler`. */
  lemma RenamedStart(line: string)
    requires StartsWith(line, Start)
    ensures StartsWith(ReplaceAll(line, Start, Renamed), Renamed)
  {
  }

  /** Replacing text keeps the last character unless the replacement ends the result. */
  lemma {:induction false} ReplaceAllLast(s: string, pattern: string, replacement: string)
    requires pattern != [] && replacement != []
    ensures var r := ReplaceAll(s, pattern, replacement);
            r == [] || (s != [] && r[|r| - 1] == s[|s| - 1]) || r[|r| - 1] == replacement[|replacement| - 1]
    decreases |s|
  {
    var r := ReplaceAll(s, pattern, replacement);
    if StartsWith(s, pattern) {
      var tail := s[|pattern|..];
      ReplaceAllLast(tail, pattern, replacement);
      if tail != [] {
        assert s[|s| - 1] == tail[|tail| - 1];
      }
    } else if s != [] {
      ReplaceAllLast(s[1..], pattern, replacement);
      if s[1..] == [] {
        assert r == [s[0]];
      }
    }
  }

  /** No printed line ends in whitespace. */
  lemma {:induction false} NoTrailingWhitespace(lines: seq<string>, copying: bool)
    ensures forall i :: 0 <= i < |EmittedFrom(lines, copying)| ==> NoTrailingSpace(EmittedFrom(lines, copying)[i])
  {
    if lines != [] {
      NoTrailingWhitespace(lines[1..], true);
      NoTrailingWhitespace(lines[1..], false);
      NoTrailingWhitespace(lines[1..], copying);
      var line := RStrip(lines[0]);
      if StartsWith(line, Start) {
        ReplaceAllLast(line, Start, Renamed);
        assert forall i :: 0 <= i < |Header| ==> NoTrailingSpace(Header[i]);
      }
    }
  }
}
