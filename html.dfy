/** `escape_text`: the handler's character-wise HTML escaper, and its inverse. */
module Html {
  import opened Text

  /** The five characters the escaper's table knows. */
  predicate IsSpecial(c: char)
  {
    c == '&' || c == '"' || c == '\'' || c == '>' || c == '<'
  }

  /** `tbl.get(c, c)`: the entity for a special character, the character itself otherwise. */
  function Entity(c: char): (r: string)
    ensures !IsSpecial(c) ==> r == [c]
    ensures IsSpecial(c) ==> |r| > 1 && r[0] == '&' && r[|r| - 1] == ';'
  {
    match c
    case '&' => "&amp;"
    case '"' => "&quot;"
    case '\'' => "&apos;"
    case '>' => "&gt;"
    case '<' => "&lt;"
    case _ => [c]
  }

  /** Characters that may not appear in escaped text: markup delimiters and quotes. */
  predicate IsMarkup(c: char)
  {
    c == '"' || c == '\'' || c == '>' || c == '<'
  }

  /** `''.join(tbl.get(c, c) for c in text)`. */
  function EscapeText(s: string): (r: string)
    ensures |r| >= |s|
  {
    if s == [] then [] else Entity(s[0]) + EscapeText(s[1..])
  }

  /** The escaped text holds no markup delimiter and no quote. */
  lemma {:induction false} EscapeTextNoMarkup(s: string)
    ensures forall i :: 0 <= i < |EscapeText(s)| ==> !IsMarkup(EscapeText(s)[i])
  {
    if s != [] {
      EscapeTextNoMarkup(s[1..]);
      var head := Entity(s[0]);
      var tail := EscapeText(s[1..]);
      assert EscapeText(s) == head + tail;
      assert forall i :: 0 <= i < |head| ==> !IsMarkup(head[i]);
    }
  }

  /** Text without special characters is left as it is. */
  lemma {:induction false} EscapeTextPlain(s: string)
    requires forall i :: 0 <= i < |s| ==> !IsSpecial(s[i])
    ensures EscapeText(s) == s
  {
    if s != [] {
      EscapeTextPlain(s[1..]);
      assert s == [s[0]] + s[1..];
    }
  }

  /** Reads the entities `EscapeText` writes back as characters. */
  function Unescape(r: string): string
    decreases |r|
  {
    if r == [] then []
    else if r[0] != '&' then [r[0]] + Unescape(r[1..])
    else if StartsWith(r, "&amp;") then "&" + Unescape(r[5..])
    else if StartsWith(r, "&quot;") then "\"" + Unescape(r[6..])
    else if StartsWith(r, "&apos;") then "'" + Unescape(r[6..])
    else if StartsWith(r, "&gt;") then ">" + Unescape(r[4..])
    else if StartsWith(r, "&lt;") then "<" + Unescape(r[4..])
    else [r[0]] + Unescape(r[1..])
  }

  lemma UnescapeAmp(rest: string)
    ensures Unescape("&amp;" + rest) == "&" + Unescape(rest)
  {
    var r := "&amp;" + rest;
    assert r[..5] == "&amp;" && r[5..] == rest;
  }

  lemma UnescapeQuot(rest: string)
    ensures Unescape("&quot;" + rest) == "\"" + Unescape(rest)
  {
    var r := "&quot;" + rest;
    assert r[..6] == "&quot;" && r[6..] == rest;
    StartsWithAt(r, "&amp;", 1);
  }

  lemma UnescapeApos(rest: string)
    ensures Unescape("&apos;" + rest) == "'" + Unescape(rest)
  {
    var r := "&apos;" + rest;
    assert r[..6] == "&apos;" && r[6..] == rest;
    StartsWithAt(r, "&amp;", 2);
    StartsWithAt(r, "&quot;", 1);
  }

  lemma UnescapeGt(rest: string)
    ensures Unescape("&gt;" + rest) == ">" + Unescape(rest)
  {
    var r := "&gt;" + rest;
    assert r[..4] == "&gt;" && r[4..] == rest;
    StartsWithAt(r, "&amp;", 1);
    StartsWithAt(r, "&quot;", 1);
    StartsWithAt(r, "&apos;", 1);
  }

  lemma UnescapeLt(rest: string)
    ensures Unescape("&lt;" + rest) == "<" + Unescape(rest)
  {
    var r := "&lt;" + rest;
    assert r[..4] == "&lt;" && r[4..] == rest;
    StartsWithAt(r, "&amp;", 1);
    StartsWithAt(r, "&quot;", 1);
    StartsWithAt(r, "&apos;", 1);
    StartsWithAt(r, "&gt;", 1);
  }

  /** Unescaping one escaped character followed by any text. */
  lemma UnescapeEntity(c: char, rest: string)
    ensures Unescape(Entity(c) + rest) == [c] + Unescape(rest)
  {
    if !IsSpecial(c) {
      var r := [c] + rest;
      assert r[0] == c && r[1..] == rest;
    } else if c == '&' {
      UnescapeAmp(rest);
    } else if c == '"' {
      UnescapeQuot(rest);
    } else if c == '\'' {
      UnescapeApos(rest);
    } else if c == '>' {
      UnescapeGt(rest);
    } else {
      UnescapeLt(rest);
    }
  }

  /** Escaping loses nothing: the original text can be read back. */
  lemma {:induction false} UnescapeEscapeText(s: string)
    ensures Unescape(EscapeText(s)) == s
  {
    if s != [] {
      UnescapeEntity(s[0], EscapeText(s[1..]));
      UnescapeEscapeText(s[1..]);
      assert s == [s[0]] + s[1..];
    }
  }

  /** Escaping distributes over concatenation, character by character. */
  lemma {:induction false} EscapeTextAppend(a: string, b: string)
    ensures EscapeText(a + b) == EscapeText(a) + EscapeText(b)
  {
    if a != [] {
      assert (a + b)[1..] == a[1..] + b;
      EscapeTextAppend(a[1..], b);
    } else {
      assert a + b == b;
    }
  }

  /** Brackets and an ampersand become entities; letters stay as they are. */
  lemma EscapeTextExample()
    ensures EscapeText("<a&b>") == "&lt;a&amp;b&gt;"
  {
    EscapeExampleStart();
    EscapeExampleEnd();
    EscapeTextAppend("<a", "&b>");
    assert "<a" + "&b>" == "<a&b>";
  }

  lemma EscapeExampleStart()
    ensures EscapeText("<a") == "&lt;a"
  {
    EscapeTextCons('a', "");
    EscapeTextCons('<', "a");
  }

  lemma EscapeExampleEnd()
    ensures EscapeText("&b>") == "&amp;b&gt;"
  {
    EscapeTextCons('>', "");
    EscapeTextCons('b', ">");
    EscapeTextCons('&', "b>");
  }

  lemma EscapeTextCons(c: char, s: string)
    ensures EscapeText([c] + s) == Entity(c) + EscapeText(s)
  {
    assert ([c] + s)[1..] == s;
  }
}
