/** `ws_get_url_prefix`: the scheme, host and port the server answers on. */
module Server {
  import opened Wrappers
  import opened Text
  import Options

  function Scheme(https: bool): (s: string)
    ensures s == "https" <==> https
    ensures s == "http" <==> !https
  {
    if !https then "http" else "https"
  }

  /** '{0}://{1}:{2}'.format(protocol, host, port) */
  function UrlPrefix(https: bool, host: string, port: int): (prefix: string)
    ensures StartsWith(prefix, Scheme(https) + "://" + host + ":")
    ensures EndsWith(prefix, IntString(port))
    ensures |prefix| == |Scheme(https)| + 3 + |host| + 1 + |IntString(port)|
  {
    var head := Scheme(https) + "://" + host + ":";
    var prefix := head + IntString(port);
    assert prefix[..|head|] == head;
    assert prefix[|prefix| - |IntString(port)|..] == IntString(port);
    prefix
  }

  /** The prefix starts `https://` exactly when the server runs with --https. */
  lemma SchemeOfPrefix(https: bool, host: string, port: int)
    ensures StartsWith(UrlPrefix(https, host, port), "https://") <==> https
    ensures StartsWith(UrlPrefix(https, host, port), "http://") <==> !https
  {
    SchemeMarks(https, host + ":" + IntString(port));
  }

  /** Only the scheme decides which of the two prefixes a URL starts with. */
  lemma SchemeMarks(https: bool, tail: string)
    ensures StartsWith(Scheme(https) + "://" + tail, "https://") <==> https
    ensures StartsWith(Scheme(https) + "://" + tail, "http://") <==> !https
  {
    var s := Scheme(https) + "://" + tail;
    if https {
      assert s[..8] == "https://";
      StartsWithAt(s, "http://", 4);
    } else {
      assert s[..7] == "http://";
      StartsWithAt(s, "https://", 4);
    }
  }

  /** The port at the end of the prefix reads back as the configured port,
      and a port the option accepts is spelled with digits only. */
  lemma PortOfPrefix(https: bool, host: string, port: int)
    ensures var prefix := UrlPrefix(https, host, port);
            var digits := prefix[|prefix| - |IntString(port)|..];
            Options.PythonInt(digits) == Some(port)
    ensures Options.PortOptInclusive(IntString(port)).Accepted? ==> '-' !in IntString(port) && AllDigits(IntString(port))
  {
    Options.PythonIntOfIntString(port);
    Options.PortOptInclusiveOfNumeral(port);
  }

  /** The default configuration: http://localhost:8080. */
  lemma DefaultPrefix()
    ensures UrlPrefix(false, "localhost", 8080) == "http://localhost:8080"
  {
    DefaultPortNumeral();
    assert Scheme(false) + "://" + "localhost" + ":" + "8080" == "http://localhost:8080";
  }

  lemma DefaultPortNumeral()
    ensures IntString(8080) == "8080"
  {
    assert DecimalString(8) == "8";
    assert DecimalString(80) == "80";
    assert DecimalString(808) == "808";
  }
}
