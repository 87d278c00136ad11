/**
 * Reading random.org's plain-text answer (nodes/Random/Random.node.ts, lines
 * 135-141): the body is trimmed with `String.prototype.trim` and read with
 * `parseInt(text, 10)`; anything `Number.isInteger` refuses (that is, NaN)
 * is an invalid response.
 *
 * `parseInt` with radix 10 skips leading white space, accepts one optional
 * sign and then reads the longest run of decimal digits; text after that run
 * is ignored, and no digit at all gives NaN (here `None`).
 */
module ResponseParsing {
  import opened Wrappers

  /** The characters JavaScript's `trim` and `parseInt` treat as white space:
      WhiteSpace and LineTerminator of ECMAScript. */
  predicate IsJsWhitespace(c: char) {
    c == '\t' || c == '\n' || c == '\U{B}' || c == '\U{C}' || c == '\r' ||
    c == ' ' || c == '\U{A0}' || c == '\U{1680}' || ('\U{2000}' <= c <= '\U{200A}') ||
    c == '\U{2028}' || c == '\U{2029}' || c == '\U{202F}' || c == '\U{205F}' ||
    c == '\U{3000}' || c == '\U{FEFF}'
  }

  predicate IsDigit(c: char) {
    '0' <= c <= '9'
  }

  /** No white-space character is a digit or a sign. */
  lemma WhitespaceIsNotDigit(c: char)
    ensures IsJsWhitespace(c) ==> !IsDigit(c) && c != '-' && c != '+'
  {
  }

  predicate AllWhitespace(s: string) {
    forall i :: 0 <= i < |s| ==> IsJsWhitespace(s[i])
  }

  predicate AllDigits(s: string) {
    forall i :: 0 <= i < |s| ==> IsDigit(s[i])
  }

  function DigitValue(c: char): (d: nat)
    requires IsDigit(c)
    ensures d < 10
  {
    c as int - '0' as int
  }

  function DigitChar(d: nat): (c: char)
    requires d < 10
    ensures IsDigit(c) && DigitValue(c) == d
  {
    ('0' as int + d) as char
  }

  /** Drops the leading white space: what is left is a suffix of `s` that
      does not start with white space, and everything dropped is white space. */
  function TrimStart(s: string): (r: string)
    ensures |r| <= |s| && r == s[|s| - |r|..]
    ensures AllWhitespace(s[..|s| - |r|])
    ensures r == [] || !IsJsWhitespace(r[0])
    decreases |s|
  {
    if s != [] && IsJsWhitespace(s[0]) then TrimStart(s[1..]) else s
  }

  /** Drops the trailing white space: what is left is a prefix of `s` that
      does not end with white space, and everything dropped is white space. */
  function TrimEnd(s: string): (r: string)
    ensures |r| <= |s| && r == s[..|r|]
    ensures AllWhitespace(s[|r|..])
    ensures r == [] || !IsJsWhitespace(r[|r| - 1])
    decreases |s|
  {
    if s != [] && IsJsWhitespace(s[|s| - 1]) then
      var init := s[..|s| - 1];
      var r := TrimEnd(init);
      assert r == s[..|r|] by { assert init[..|r|] == s[..|r|]; }
      assert s[|r|..] == init[|r|..] + [s[|s| - 1]];
      r
    else
      s
  }

  /** `String.prototype.trim`: white space dropped from both ends, as
      TrimStart and TrimEnd state. */
  function Trim(s: string): string {
    TrimEnd(TrimStart(s))
  }

  /** The length of the run of decimal digits that `s` starts with. */
  function DigitRun(s: string): (k: nat)
    ensures k <= |s| && AllDigits(s[..k])
    ensures k == |s| || !IsDigit(s[k])
    decreases |s|
  {
    if s != [] && IsDigit(s[0]) then 1 + DigitRun(s[1..]) else 0
  }

  /** The value of a string of decimal digits, most significant first. */
  function DigitsValue(ds: string): nat
    requires AllDigits(ds)
    decreases |ds|
  {
    if ds == [] then 0 else DigitsValue(ds[..|ds| - 1]) * 10 + DigitValue(ds[|ds| - 1])
  }

  /** The value of the longest run of digits `s` starts with; `None` when
      `s` does not start with a digit. */
  function ParseDigits(s: string): (r: Option<nat>)
    ensures r.Some? <==> |s| > 0 && IsDigit(s[0])
  {
    var k := DigitRun(s);
    if k == 0 then None else Some(DigitsValue(s[..k]))
  }

  /**
   * What `parseInt` does once the leading white space is gone: an optional
   * sign, then the longest run of digits. A number comes out exactly when
   * the text starts with a digit, or with a sign followed by a digit.
   */
  function ParseSigned(t: string): (r: Option<int>)
    ensures r.Some? <==>
      (|t| > 0 && IsDigit(t[0])) ||
      (|t| > 1 && (t[0] == '-' || t[0] == '+') && IsDigit(t[1]))
  {
    if |t| > 0 && t[0] == '-' then
      match ParseDigits(t[1..])
      case None => None
      case Some(m) => Some(-(m as int))
    else if |t| > 0 && t[0] == '+' then
      match ParseDigits(t[1..])
      case None => None
      case Some(m) => Some(m)
    else
      match ParseDigits(t)
      case None => None
      case Some(m) => Some(m)
  }

  /** `parseInt(s, 10)`, with NaN as `None`. Text without a single decimal
      digit never yields a number. */
  function ParseInt(s: string): (r: Option<int>)
    ensures (forall i :: 0 <= i < |s| ==> !IsDigit(s[i])) ==> r == None
  {
    var t := TrimStart(s);
    var r := ParseSigned(t);
    assert r.Some? ==> exists i :: 0 <= i < |s| && IsDigit(s[i]) by {
      if r.Some? {
        var p := |s| - |t|;
        if IsDigit(t[0]) {
          assert IsDigit(s[p]);
        } else {
          assert IsDigit(s[p + 1]);
        }
      }
    }
    r
  }

  /**
   * The node's reading of a response body, `parseInt(body.trim(), 10)`. It
   * reads what `parseInt` reads from the raw body, and a number comes out
   * exactly when the body, past its leading white space, starts with a
   * digit or with a sign followed by a digit.
   */
  function ParseResponse(body: string): (r: Option<int>)
    ensures r == ParseInt(body)
    ensures r.Some? <==>
      var t := TrimStart(body);
      (|t| > 0 && IsDigit(t[0])) || (|t| > 1 && (t[0] == '-' || t[0] == '+') && IsDigit(t[1]))
  {
    TrimIsRedundant(body);
    ParseInt(Trim(body))
  }

  /** Decimal notation of a natural number, as random.org writes it. */
  function ShowNat(n: nat): (s: string)
    ensures |s| > 0 && AllDigits(s)
  {
    if n < 10 then [DigitChar(n)] else ShowNat(n / 10) + [DigitChar(n % 10)]
  }

  /** Decimal notation of an integer, with a leading '-' when negative. */
  function ShowInt(n: int): (s: string)
    ensures |s| > 0 && (IsDigit(s[0]) || s[0] == '-')
  {
    if n < 0 then ['-'] + ShowNat(-n) else ShowNat(n)
  }

  /** Reading back the decimal notation of `n` gives `n`. */
  lemma {:induction false} DigitsValueShowNat(n: nat)
    ensures DigitsValue(ShowNat(n)) == n
  {
    if n >= 10 {
      var s := ShowNat(n);
      assert s[..|s| - 1] == ShowNat(n / 10);
      DigitsValueShowNat(n / 10);
    }
  }

  /** The digit run is the only prefix of digits that is followed by a
      non-digit or by the end of the text. */
  lemma {:induction false} DigitRunUnique(s: string, k: nat)
    requires k <= |s| && AllDigits(s[..k])
    requires k == |s| || !IsDigit(s[k])
    ensures DigitRun(s) == k
    decreases k
  {
    if k > 0 {
      assert IsDigit(s[..k][0]);
      assert s[1..][..k - 1] == s[..k][1..];
      assert k - 1 == |s[1..]| || s[1..][k - 1] == s[k];
      DigitRunUnique(s[1..], k - 1);
    }
  }

  /** The digit run ends at the first non-digit, if not before. */
  lemma {:induction false} DigitRunStopsAt(s: string, j: nat)
    requires j < |s| && !IsDigit(s[j])
    ensures DigitRun(s) <= j
    decreases j
  {
    if j > 0 && IsDigit(s[0]) {
      assert s[1..][j - 1] == s[j];
      DigitRunStopsAt(s[1..], j - 1);
    }
  }

  /** A run of digits followed by something that is not a digit is read in full. */
  lemma DigitRunOfDigits(ds: string, rest: string)
    requires AllDigits(ds)
    requires rest == [] || !IsDigit(rest[0])
    ensures DigitRun(ds + rest) == |ds| && (ds + rest)[..|ds|] == ds
  {
    var s := ds + rest;
    assert s[..|ds|] == ds;
    assert |ds| == |s| || s[|ds|] == rest[0];
    DigitRunUnique(s, |ds|);
  }

  /** The decimal notation of `m`, followed by anything that does not
      continue the digits, reads as `m`. */
  lemma ParseDigitsShown(m: nat, rest: string)
    requires rest == [] || !IsDigit(rest[0])
    ensures ParseDigits(ShowNat(m) + rest) == Some(m)
  {
    DigitsValueShowNat(m);
    DigitRunOfDigits(ShowNat(m), rest);
  }

  /** Splitting a sign off the front of a concatenation. */
  lemma SignedConcat(sign: char, digits: string, rest: string)
    ensures ([sign] + digits) + rest == [sign] + (digits + rest)
    ensures (([sign] + digits) + rest)[0] == sign
    ensures (([sign] + digits) + rest)[1..] == digits + rest
  {
  }

  /** Prefix leniency of the sign-and-digits step: the decimal notation of
      `n` followed by anything that does not continue the digits reads as `n`. */
  lemma ParseSignedShown(n: int, rest: string)
    requires rest == [] || !IsDigit(rest[0])
    ensures ParseSigned(ShowInt(n) + rest) == Some(n)
  {
    var m: nat := if n < 0 then -n else n;
    var digits := ShowNat(m) + rest;
    ParseDigitsShown(m, rest);
    if n < 0 {
      SignedConcat('-', ShowNat(m), rest);
    } else {
      assert ShowInt(n) + rest == digits;
      assert digits[0] == ShowNat(m)[0];
    }
  }

  /** Leading white space is skipped up to the first other character. */
  lemma {:induction false} TrimStartSkips(lead: string, rest: string)
    requires AllWhitespace(lead)
    requires rest == [] || !IsJsWhitespace(rest[0])
    ensures TrimStart(lead + rest) == rest
    decreases |lead|
  {
    if lead != [] {
      assert (lead + rest)[1..] == lead[1..] + rest;
      TrimStartSkips(lead[1..], rest);
    } else {
      assert lead + rest == rest;
    }
  }

  /** Trailing white space never changes the length of the leading digit
      run, nor the digits in it. */
  lemma DigitRunIgnoresTrailingWhitespace(b: string, j: nat)
    requires j <= |b| && AllWhitespace(b[j..])
    ensures DigitRun(b[..j]) == DigitRun(b) && b[..j][..DigitRun(b)] == b[..DigitRun(b)]
  {
    var k := DigitRun(b);
    if j < |b| {
      assert IsJsWhitespace(b[j..][0]);
      DigitRunStopsAt(b, j);
    }
    assert b[..j][..k] == b[..k];
    assert k == j || b[..j][k] == b[k];
    DigitRunUnique(b[..j], k);
  }

  /** The sign-and-digits step ignores trailing white space. */
  lemma ParseSignedIgnoresTrailingWhitespace(u: string, j: nat)
    requires j <= |u| && AllWhitespace(u[j..])
    ensures ParseSigned(u[..j]) == ParseSigned(u)
  {
    if j == 0 {
      if u != [] {
        assert u[0] == u[j..][0];
      }
    } else if j < |u| {
      var p := u[..j];
      assert p[0] == u[0];
      if u[0] == '-' || u[0] == '+' {
        assert p[1..] == u[1..][..j - 1];
        assert u[1..][j - 1..] == u[j..];
        DigitRunIgnoresTrailingWhitespace(u[1..], j - 1);
      } else {
        DigitRunIgnoresTrailingWhitespace(u, j);
      }
    } else {
      assert u[..j] == u;
    }
  }

  /** `parseInt` skips white space up to the first other character. */
  lemma ParseIntSkipsLead(lead: string, rest: string)
    requires AllWhitespace(lead)
    requires rest == [] || !IsJsWhitespace(rest[0])
    ensures ParseInt(lead + rest) == ParseSigned(rest)
  {
    TrimStartSkips(lead, rest);
  }

  /** Text that does not start with white space goes straight to the
      sign-and-digits step. */
  lemma ParseIntClean(s: string)
    requires s == [] || !IsJsWhitespace(s[0])
    ensures ParseInt(s) == ParseSigned(s)
  {
  }

  /**
   * Trimming before `parseInt` is redundant: `parseInt` skips the leading
   * white space itself, and trailing white space can never extend the digit
   * run, so the node reads exactly what `parseInt` reads from the raw body.
   */
  lemma TrimIsRedundant(body: string)
    ensures ParseInt(Trim(body)) == ParseInt(body)
  {
    var u := TrimStart(body);
    var v := TrimEnd(u);
    if v != [] {
      assert v[0] == u[0];
      TrimStartSkips([], v);
    }
    assert TrimStart(v) == v;
    ParseSignedIgnoresTrailingWhitespace(u, |v|);
  }

  /**
   * Prefix leniency: the decimal notation of `n` followed by any text that
   * does not continue the digits (a newline, "abc", ...) reads as `n`.
   */
  lemma ParseResponseLenient(body: string, n: int, rest: string)
    requires rest == [] || !IsDigit(rest[0])
    requires body == ShowInt(n) + rest
    ensures ParseResponse(body) == Some(n)
  {
    assert body[0] == ShowInt(n)[0];
    WhitespaceIsNotDigit(body[0]);
    TrimIsRedundant(body);
    ParseIntClean(body);
    ParseSignedShown(n, rest);
  }

  /** A leading plus sign is accepted and does not change the value: '+'
      and the decimal notation of `m`, followed by anything that does not
      continue the digits, reads as `m`. */
  lemma ParseResponsePlus(body: string, m: nat, rest: string)
    requires rest == [] || !IsDigit(rest[0])
    requires body == ['+'] + ShowNat(m) + rest
    ensures ParseResponse(body) == Some(m)
  {
    SignedConcat('+', ShowNat(m), rest);
    ParseIntClean(body);
    ParseDigitsShown(m, rest);
  }

  /**
   * White-space tolerance: the decimal notation of `n`, surrounded by any
   * white space before and after, reads as `n`.
   */
  lemma ParseResponseTolerant(body: string, lead: string, n: int, trail: string)
    requires AllWhitespace(lead) && AllWhitespace(trail)
    requires body == lead + ShowInt(n) + trail
    ensures ParseResponse(body) == Some(n)
  {
    var shown := ShowInt(n) + trail;
    assert body == lead + shown;
    TrimIsRedundant(body);
    assert shown[0] == ShowInt(n)[0];
    WhitespaceIsNotDigit(shown[0]);
    ParseIntSkipsLead(lead, shown);
    assert trail == [] || !IsDigit(trail[0]) by {
      if trail != [] { WhitespaceIsNotDigit(trail[0]); }
    }
    ParseSignedShown(n, trail);
  }

  /** random.org's usual answer, digits and a newline: "42\n" reads as 42. */
  lemma ParseResponseTrailingNewline()
    ensures ParseResponse("42\n") == Some(42)
  {
    assert ShowInt(42) == "42";
    ParseResponseLenient("42\n", 42, "\n");
  }

  /** White space on both sides is tolerated: "  42  \n\r" reads as 42. */
  lemma ParseResponseSurroundingWhitespace()
    ensures ParseResponse("  42  \n\r") == Some(42)
  {
    assert ShowInt(42) == "42";
    assert AllWhitespace("  ") && AllWhitespace("  \n\r");
    ParseResponseTolerant("  42  \n\r", "  ", 42, "  \n\r");
  }

  /** A leading minus sign is honoured: "-75\n" reads as -75. */
  lemma ParseResponseNegative()
    ensures ParseResponse("-75\n") == Some(-75)
  {
    assert ShowInt(-75) == "-75";
    ParseResponseLenient("-75\n", -75, "\n");
  }

  /** Text after the digits is ignored: "42abc" reads as 42. */
  lemma ParseResponseIgnoresSuffix()
    ensures ParseResponse("42abc") == Some(42)
  {
    assert ShowInt(42) == "42";
    ParseResponseLenient("42abc", 42, "abc");
  }

  /** A body without a single decimal digit is refused. */
  lemma ParseResponseNeedsDigit(body: string)
    requires forall i :: 0 <= i < |body| ==> !IsDigit(body[i])
    ensures ParseResponse(body) == None
  {
  }

  /** Digits that do not lead are not read: "abc42" is refused. */
  lemma ParseResponseNeedsLeadingDigit(body: string)
    requires body == "abc42"
    ensures ParseResponse(body) == None
  {
    assert body[0] == 'a';
    assert TrimStart(body) == body;
  }

  /** "invalid_response" is refused. */
  lemma ParseResponseRejectsText(body: string)
    requires body == "invalid_response"
    ensures ParseResponse(body) == None
  {
    assert body[0] == 'i' && body[|body| - 1] == 'e';
    assert Trim(body) == body;
  }
}
