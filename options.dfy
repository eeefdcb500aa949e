/**
  The command-line value checkers of the server (`getopts` in webserver.py)
  that look at the text alone: the plug-in entry-point name, the port and
  the log-file size. Each either accepts the value, possibly converted, or
  rejects it with argparse's message.
 */
module Options {
  import opened Wrappers
  import opened Text

  datatype Checked<T> = Accepted(value: T) | Rejected(message: string)

  // ---------------------------------------------------------------------
  // --entry: a Python function name, `^[a-zA-Z_][a-zA-Z_0-9]*$`

  const NotAFunctionName := "Not a valid python function name."

  predicate IsNameStart(c: char) { 'a' <= c <= 'z' || 'A' <= c <= 'Z' || c == '_' }

  predicate IsNameChar(c: char) { IsNameStart(c) || IsDigit(c) }

  predicate IsName(s: string)
  {
    |s| > 0 && IsNameStart(s[0]) && forall i :: 1 <= i < |s| ==> IsNameChar(s[i])
  }

  /** The regular expression's `$` also matches just before a final newline. */
  predicate MatchesName(val: string)
  {
    IsName(val) || (|val| > 0 && val[|val| - 1] == '\n' && IsName(val[..|val| - 1]))
  }

  /** entry_obj: the value itself when it is a function name. */
  function EntryObj(val: string): (r: Checked<string>)
    ensures r.Accepted? <==> IsName(val) || (|val| > 0 && val[|val| - 1] == '\n' && IsName(val[..|val| - 1]))
    ensures r.Accepted? ==> r.value == val && |val| > 0 && IsNameStart(val[0])
    ensures r.Rejected? ==> r.message == NotAFunctionName
  {
    if MatchesName(val) then Accepted(val) else Rejected(NotAFunctionName)
  }

  /** Every character after the first may be a letter, digit or underscore,
      and nothing else is accepted there. */
  lemma {:induction false} EntryObjExtends(name: string, c: char)
    requires EntryObj(name).Accepted? && name[|name| - 1] != '\n'
    ensures EntryObj(name + [c]).Accepted? <==> IsNameChar(c) || c == '\n'
  {
    var s := name + [c];
    assert s[..|s| - 1] == name;
    assert IsName(name);
    if IsName(s) {
      assert IsNameChar(s[|s| - 1]);
    }
    if IsNameChar(c) {
      assert forall i :: 1 <= i < |s| ==> IsNameChar(s[i]) by {
        forall i | 1 <= i < |s| ensures IsNameChar(s[i]) {
          if i < |name| { assert s[i] == name[i]; }
        }
      }
    }
  }

  // ---------------------------------------------------------------------
  // --port: `int(val)`, then 1 < port < 65535

  const PortOutOfRange := "Must be an integer in the range: [1..65535]."
  const PortNotInteger := "Not an integer in the range: [1..65535]."

  /**
    Python 2.7's `int(s)` on a str: leading and trailing whitespace, an
    optional sign that may itself be followed by whitespace, then decimal
    digits; anything else raises ValueError (None here).
   */
  function PythonInt(s: string): Option<int>
  {
    var t := LStrip(RStrip(s));
    var digits := Unsigned(t);
    if digits != [] && AllDigits(digits) then
      var magnitude: int := DecimalValue(digits);
      Some(if IsNegative(t) then -magnitude else magnitude)
    else None
  }

  /** Whether t starts with a minus sign. */
  predicate IsNegative(t: string)
  {
    t != [] && t[0] == '-'
  }

  /** What follows the optional sign, and any whitespace after it. */
  function Unsigned(t: string): string
  {
    if t != [] && (t[0] == '+' || t[0] == '-') then LStrip(t[1..]) else t
  }

  lemma StripsNothing(s: string)
    requires |s| > 0 && !IsSpace(s[0]) && !IsSpace(s[|s| - 1])
    ensures LStrip(RStrip(s)) == s
  {
  }

  lemma PythonIntOfDigits(d: string)
    requires |d| > 0 && AllDigits(d)
    ensures PythonInt(d) == Some(DecimalValue(d))
  {
    StripsNothing(d);
    assert Unsigned(d) == d && !IsNegative(d);
  }

  lemma StripsNothingSigned(d: string)
    requires |d| > 0 && AllDigits(d)
    ensures LStrip(RStrip("-" + d)) == "-" + d
  {
    var s := "-" + d;
    assert s[|s| - 1] == d[|d| - 1] && s[0] == '-';
    StripsNothing(s);
  }

  lemma UnsignedOfNegative(d: string)
    requires |d| > 0 && AllDigits(d)
    ensures Unsigned("-" + d) == d
  {
    var s := "-" + d;
    assert s[1..] == d;
    StripsNothing(d);
  }

  lemma PythonIntOfNegative(d: string, v: nat)
    requires |d| > 0 && AllDigits(d) && DecimalValue(d) == v
    ensures PythonInt("-" + d) == Some(-(v as int))
  {
    StripsNothingSigned(d);
    UnsignedOfNegative(d);
  }

  lemma PythonIntOfNat(n: nat)
    ensures PythonInt(DecimalString(n)) == Some(n)
  {
    var d := DecimalString(n);
    PythonIntOfDigits(d);
    DecimalRoundTrip(n);
    assert DecimalValue(d) == n;
    assert PythonInt(d) == Some(DecimalValue(d));
  }

  lemma PythonIntOfNegativeNat(n: nat)
    requires n > 0
    ensures PythonInt("-" + DecimalString(n)) == Some(-(n as int))
  {
    var d := DecimalString(n);
    DecimalRoundTrip(n);
    PythonIntOfNegative(d, n);
  }

  /** `int` reads back what `str` writes, for every integer. */
  lemma PythonIntOfIntString(i: int)
    ensures PythonInt(IntString(i)) == Some(i)
  {
    var n: nat := if i < 0 then -i else i;
    var text := IntString(i);
    if i < 0 {
      assert text == "-" + DecimalString(n);
      PythonIntOfNegativeNat(n);
      assert PythonInt(text) == Some(-(n as int));
    } else {
      assert text == DecimalString(n);
      PythonIntOfNat(n);
      assert PythonInt(text) == Some(n);
    }
  }

  /** port_opt: the port as an integer when 1 < port < 65535. */
  function PortOpt(val: string): (r: Checked<int>)
    ensures r.Accepted? <==> PythonInt(val).Some? && 1 < PythonInt(val).value < 65535
    ensures r.Accepted? ==> r.value == PythonInt(val).value
    ensures r.Rejected? ==> r.message == (if PythonInt(val).None? then PortNotInteger else PortOutOfRange)
  {
    match PythonInt(val)
    case None => Rejected(PortNotInteger)
    case Some(p) => if 1 < p < 65535 then Accepted(p) else Rejected(PortOutOfRange)
  }

  /** A port written as a numeral is accepted exactly when it lies strictly
      between 1 and 65535: both ends of the advertised range are refused. */
  lemma PortOptOfNumeral(p: int)
    ensures PortOpt(IntString(p)) == if 1 < p < 65535 then Accepted(p) else Rejected(PortOutOfRange)
  {
    PythonIntOfIntString(p);
  }

  /** As written, both ends of the range named in the messages are refused. */
  lemma PortRangeEndsRefused()
    ensures PortOpt("1") == Rejected(PortOutOfRange)
    ensures PortOpt("65535") == Rejected(PortOutOfRange)
  {
    PortOptOfNumeral(1);
    assert IntString(1) == "1";
    PortOptOfNumeral(65535);
    HighestPortNumeral();
  }

  lemma HighestPortNumeral()
    ensures IntString(65535) == "65535"
  {
    assert DecimalString(6) == "6";
    assert DecimalString(65) == "65";
    assert DecimalString(655) == "655";
    assert DecimalString(6553) == "6553";
  }

  /** port_opt with the range its messages and documentation give, [1..65535]. */
  function PortOptInclusive(val: string): (r: Checked<int>)
    ensures r.Accepted? ==> PythonInt(val) == Some(r.value)
  {
    match PythonInt(val)
    case None => Rejected(PortNotInteger)
    case Some(p) => if 1 <= p <= 65535 then Accepted(p) else Rejected(PortOutOfRange)
  }

  /** The inclusive check accepts exactly the numerals of 1 to 65535, and
      differs from the check as written only on the two ends. */
  lemma PortOptInclusiveOfNumeral(p: int)
    ensures PortOptInclusive(IntString(p)).Accepted? <==> 1 <= p <= 65535
    ensures PortOptInclusive(IntString(p)) != PortOpt(IntString(p)) <==> p == 1 || p == 65535
  {
    PythonIntOfIntString(p);
  }

  // ---------------------------------------------------------------------
  // --log-size: `^(\d+)(\.\d+)?([kmg])?$`, scaled by 2^10, 2^20 or 2^30

  const InvalidSize := "Invalid format, expected something like \"10m\" or \"1.3g\"."

  /** The three groups of the size pattern. */
  datatype SizeLiteral = SizeLiteral(whole: string, fraction: Option<string>, suffix: Option<char>)

  predicate IsSuffix(c: char) { c == 'k' || c == 'm' || c == 'g' }

  predicate WellFormedSize(lit: SizeLiteral)
  {
    && |lit.whole| > 0 && AllDigits(lit.whole)
    && (lit.fraction.Some? ==> |lit.fraction.value| > 0 && AllDigits(lit.fraction.value))
    && (lit.suffix.Some? ==> IsSuffix(lit.suffix.value))
  }

  /** The text a size literal is written as. */
  function RenderSize(lit: SizeLiteral): string
  {
    lit.whole
    + (if lit.fraction.Some? then "." + lit.fraction.value else "")
    + (if lit.suffix.Some? then [lit.suffix.value] else "")
  }

  /** The length of the longest run of digits at the start of s. */
  function LeadingDigits(s: string): (n: nat)
    ensures n <= |s| && AllDigits(s[..n]) && (n < |s| ==> !IsDigit(s[n]))
  {
    if s == [] || !IsDigit(s[0]) then 0
    else
      var m := LeadingDigits(s[1..]);
      assert s[..1 + m] == [s[0]] + s[1..][..m];
      1 + m
  }

  function MatchSuffix(whole: string, fraction: Option<string>, tail: string): Option<SizeLiteral>
  {
    if tail == [] then Some(SizeLiteral(whole, fraction, None))
    else if |tail| == 1 && IsSuffix(tail[0]) then Some(SizeLiteral(whole, fraction, Some(tail[0])))
    else None
  }

  /** The match of `(\d+)(\.\d+)?([kmg])?` against the whole of body. */
  function MatchSizeBody(body: string): Option<SizeLiteral>
  {
    var n := LeadingDigits(body);
    if n == 0 then None
    else
      var rest := body[n..];
      if rest != [] && rest[0] == '.' then
        var m := LeadingDigits(rest[1..]);
        if m == 0 then None else MatchSuffix(body[..n], Some(rest[1..][..m]), rest[1..][m..])
      else MatchSuffix(body[..n], None, rest)
  }

  /** The match of the size pattern against val, group by group, or None;
      `$` also matches before a final newline. */
  function MatchSize(val: string): Option<SizeLiteral>
  {
    if val != [] && val[|val| - 1] == '\n' then MatchSizeBody(val[..|val| - 1]) else MatchSizeBody(val)
  }

  lemma {:induction false} LeadingDigitsOf(digits: string, rest: string)
    requires AllDigits(digits)
    requires rest == [] || !IsDigit(rest[0])
    ensures LeadingDigits(digits + rest) == |digits|
  {
    if digits != [] {
      assert (digits + rest)[1..] == digits[1..] + rest;
      LeadingDigitsOf(digits[1..], rest);
    } else {
      assert digits + rest == rest;
    }
  }

  /** The fraction group: the digits after the point, then the suffix. */
  lemma FractionGroup(f: string, tail: string)
    requires |f| > 0 && AllDigits(f)
    requires tail == [] || !IsDigit(tail[0])
    ensures ("." + f + tail)[1..] == f + tail
    ensures LeadingDigits(f + tail) == |f|
    ensures (f + tail)[..|f|] == f && (f + tail)[|f|..] == tail
  {
    LeadingDigitsOf(f, tail);
    var s := f + tail;
    assert s[..|f|] == f && s[|f|..] == tail;
    var t := "." + f + tail;
    assert t == "." + s;
    assert t[1..] == s;
  }

  lemma MatchSizeBodyComplete(lit: SizeLiteral)
    requires WellFormedSize(lit)
    ensures MatchSizeBody(RenderSize(lit)) == Some(lit)
  {
    var tail := if lit.suffix.Some? then [lit.suffix.value] else "";
    var afterWhole := (if lit.fraction.Some? then "." + lit.fraction.value else "") + tail;
    var s := RenderSize(lit);
    assert s == lit.whole + afterWhole;
    LeadingDigitsOf(lit.whole, afterWhole);
    assert s[..|lit.whole|] == lit.whole && s[|lit.whole|..] == afterWhole;
    if lit.fraction.Some? {
      FractionGroup(lit.fraction.value, tail);
      assert afterWhole == "." + lit.fraction.value + tail;
    }
  }

  /** A rendered literal is not empty and does not end in a newline. */
  lemma RenderSizeLast(lit: SizeLiteral)
    requires WellFormedSize(lit)
    ensures var s := RenderSize(lit); |s| > 0 && s[|s| - 1] != '\n'
  {
    var s := RenderSize(lit);
    if lit.suffix.Some? {
      assert s[|s| - 1] == lit.suffix.value;
    } else if lit.fraction.Some? {
      var f := lit.fraction.value;
      assert s == lit.whole + "." + f && s[|s| - 1] == f[|f| - 1];
    } else {
      assert s == lit.whole;
    }
  }

  /** Every well-formed literal is matched, group by group, with or without
      a final newline. */
  lemma SizeMatchComplete(lit: SizeLiteral)
    requires WellFormedSize(lit)
    ensures MatchSize(RenderSize(lit)) == Some(lit)
    ensures MatchSize(RenderSize(lit) + "\n") == Some(lit)
  {
    MatchSizeBodyComplete(lit);
    RenderSizeLast(lit);
    var s := RenderSize(lit);
    var t := s + "\n";
    assert t[|t| - 1] == '\n' && t[..|t| - 1] == s;
  }

  /** The suffix group is empty or one of `k`, `m`, `g`, and is all that is left. */
  lemma SuffixSound(whole: string, fraction: Option<string>, tail: string)
    requires MatchSuffix(whole, fraction, tail).Some?
    ensures var lit := MatchSuffix(whole, fraction, tail).value;
            && lit.whole == whole && lit.fraction == fraction
            && (lit.suffix.Some? ==> IsSuffix(lit.suffix.value))
            && tail == (if lit.suffix.Some? then [lit.suffix.value] else "")
  {
    if tail != [] {
      assert tail == [tail[0]];
    }
  }

  lemma MatchSizeBodySound(body: string)
    requires MatchSizeBody(body).Some?
    ensures WellFormedSize(MatchSizeBody(body).value)
    ensures body == RenderSize(MatchSizeBody(body).value)
  {
    var n := LeadingDigits(body);
    var whole := body[..n];
    var rest := body[n..];
    assert body == whole + rest;
    if rest != [] && rest[0] == '.' {
      var digits := rest[1..];
      var m := LeadingDigits(digits);
      var f := digits[..m];
      var tail := digits[m..];
      assert rest == "." + f + tail;
      SuffixSound(whole, Some(f), tail);
    } else {
      SuffixSound(whole, None, rest);
    }
  }

  /** Whatever is matched is a well-formed literal, written exactly as the
      value (the regular expression allows one final newline). */
  lemma SizeMatchSound(val: string)
    requires MatchSize(val).Some?
    ensures WellFormedSize(MatchSize(val).value)
    ensures val == RenderSize(MatchSize(val).value) || val == RenderSize(MatchSize(val).value) + "\n"
  {
    if val != [] && val[|val| - 1] == '\n' {
      MatchSizeBodySound(val[..|val| - 1]);
      assert val == val[..|val| - 1] + "\n";
    } else {
      MatchSizeBodySound(val);
    }
  }

  /** Multiplier for the optional suffix: kibi-, mebi- or gibibytes. */
  function Scale(suffix: Option<char>): nat
  {
    match suffix
    case Some('k') => 1024
    case Some('m') => 1024 * 1024
    case Some('g') => 1024 * 1024 * 1024
    case _ => 1
  }

  /** The value of an integer literal, in bytes. */
  function SizeBytes(lit: SizeLiteral): nat
    requires WellFormedSize(lit)
  {
    DecimalValue(lit.whole) * Scale(lit.suffix)
  }

  /** Outcome of log_size_opt: a byte count, a fractional size (computed in
      floating point, not modelled), or argparse's error. */
  datatype LogSize = Bytes(count: nat) | Fractional(literal: SizeLiteral) | InvalidLogSize(message: string)

  /** log_size_opt: multiplies the digits by the suffix's power of two, step by step. */
  method LogSizeOpt(val: string) returns (r: LogSize)
    ensures r.InvalidLogSize? <==> MatchSize(val).None?
    ensures r.InvalidLogSize? ==> r.message == InvalidSize
    ensures r.Fractional? <==> MatchSize(val).Some? && MatchSize(val).value.fraction.Some?
    ensures r.Fractional? ==> r.literal == MatchSize(val).value
    ensures r.Bytes? ==> WellFormedSize(MatchSize(val).value) && r.count == SizeBytes(MatchSize(val).value)
  {
    var m := MatchSize(val);
    if m.None? {
      return InvalidLogSize(InvalidSize);
    }
    SizeMatchSound(val);
    var lit := m.value;
    if lit.fraction.Some? {
      return Fractional(lit);
    }
    var logSize := DecimalValue(lit.whole);
    if lit.suffix == Some('k') {
      logSize := logSize * 1024;
    } else if lit.suffix == Some('m') {
      logSize := logSize * (1024 * 1024);
    } else if lit.suffix == Some('g') {
      logSize := logSize * (1024 * 1024 * 1024);
    }
    r := Bytes(logSize);
  }

  /** A run of digits with suffix k, m or g is that number of KiB, MiB or GiB. */
  lemma SuffixScales(digits: string, suffix: char)
    requires |digits| > 0 && AllDigits(digits) && IsSuffix(suffix)
    ensures MatchSize(digits + [suffix]) == Some(SizeLiteral(digits, None, Some(suffix)))
    ensures MatchSize(digits) == Some(SizeLiteral(digits, None, None))
    ensures SizeBytes(SizeLiteral(digits, None, Some(suffix)))
         == SizeBytes(SizeLiteral(digits, None, None)) * (if suffix == 'k' then 1024 else if suffix == 'm' then 1048576 else 1073741824)
  {
    SizeMatchComplete(SizeLiteral(digits, None, Some(suffix)));
    SizeMatchComplete(SizeLiteral(digits, None, None));
  }

  lemma DecimalExample()
    ensures DecimalValue("1048576") == 1048576
    ensures DecimalValue("1024") == 1024
  {
    MebiNumeral();
    DecimalRoundTrip(1048576);
    KibiNumeral();
    DecimalRoundTrip(1024);
  }

  lemma MebiNumeral()
    ensures DecimalString(1048576) == "1048576"
  {
    assert DecimalString(10) == "10";
    assert DecimalString(104) == "104";
    assert DecimalString(1048) == "1048";
    assert DecimalString(10485) == "10485";
    assert DecimalString(104857) == "104857";
  }

  lemma KibiNumeral()
    ensures DecimalString(1024) == "1024"
  {
    assert DecimalString(10) == "10";
    assert DecimalString(102) == "102";
  }

  /** The two spellings of one MiB in the option's documentation parse as expected. */
  lemma LogSizeExamples()
    ensures MatchSize("1048576") == Some(SizeLiteral("1048576", None, None))
    ensures MatchSize("1m") == Some(SizeLiteral("1", None, Some('m')))
  {
    SizeMatchComplete(SizeLiteral("1048576", None, None));
    SizeMatchComplete(SizeLiteral("1", None, Some('m')));
    assert RenderSize(SizeLiteral("1", None, Some('m'))) == "1m";
    assert RenderSize(SizeLiteral("1048576", None, None)) == "1048576";
  }

  /** 1048576, 1m and 1024k are one MiB; 1024m and 1g are one GiB. */
  lemma LogSizeExampleValues()
    ensures SizeBytes(SizeLiteral("1048576", None, None)) == 1048576
    ensures SizeBytes(SizeLiteral("1", None, Some('m'))) == 1048576
    ensures SizeBytes(SizeLiteral("1024", None, Some('k'))) == 1048576
    ensures SizeBytes(SizeLiteral("1024", None, Some('m'))) == 1073741824
    ensures SizeBytes(SizeLiteral("1", None, Some('g'))) == 1073741824
  {
    DecimalExample();
  }

  /** Upper-case suffixes, a bare suffix and the empty string are refused. */
  lemma LogSizeRejections()
    ensures MatchSize("10M").None? && MatchSize("m").None? && MatchSize("").None?
  {
    assert "10M"[2..] == "M";
  }
}
