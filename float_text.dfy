/**
 * Which strings Python's `float()` accepts: optional surrounding white space, an optional
 * sign, then `inf`, `infinity` or `nan` in any case, or a decimal literal with an optional
 * fraction and exponent whose digit runs may hold single underscores between digits
 * (`"1.25"`, `" 3 "`, `"1e3"`, `"1_000"`, `"-Inf"`). White space and digits are the
 * ASCII ones.
 */
module FloatText {
  import opened Text

  predicate IsDigit(c: char) {
    '0' <= c <= '9'
  }

  /** The characters `str.strip()` removes, within ASCII: tab to carriage return, 0x1C-0x1F and space. */
  predicate IsSpace(c: char) {
    ('\t' <= c <= '\r') || (28 <= c as int <= 32)
  }

  /** The index of the first character of `s` in `cs`, or `|s|` when there is none. */
  function FirstOf(s: string, cs: set<char>): (i: nat)
    ensures i <= |s|
    ensures forall k :: 0 <= k < i ==> s[k] !in cs
    ensures i < |s| ==> s[i] in cs
  {
    if s == [] || s[0] in cs then 0 else 1 + FirstOf(s[1..], cs)
  }

  /** How many white-space characters `s` starts with. */
  function LeadingSpaces(s: string): (n: nat)
    ensures n <= |s|
    ensures forall k :: 0 <= k < n ==> IsSpace(s[k])
    ensures n < |s| ==> !IsSpace(s[n])
  {
    if s == [] || !IsSpace(s[0]) then 0 else 1 + LeadingSpaces(s[1..])
  }

  /** How many white-space characters `s` ends with. */
  function TrailingSpaces(s: string): (n: nat)
    ensures n <= |s|
    ensures forall k :: |s| - n <= k < |s| ==> IsSpace(s[k])
    ensures n < |s| ==> !IsSpace(s[|s| - n - 1])
  {
    if s == [] || !IsSpace(s[|s| - 1]) then 0 else 1 + TrailingSpaces(s[..|s| - 1])
  }

  /** `s.strip()`: what is left between the leading and the trailing white space. */
  function Strip(s: string): (t: string)
    ensures t == [] || (!IsSpace(t[0]) && !IsSpace(t[|t| - 1]))
    ensures |t| <= |s|
  {
    var rest := s[LeadingSpaces(s)..];
    rest[..|rest| - TrailingSpaces(rest)]
  }

  /** `s` without one leading `+` or `-`. */
  function Unsigned(s: string): (u: string)
    ensures u == s || (s != [] && (s[0] == '+' || s[0] == '-') && u == s[1..])
  {
    if s != [] && (s[0] == '+' || s[0] == '-') then s[1..] else s
  }

  /**
   * A run of digits and underscores that starts and ends with a digit and has no two
   * underscores in a row, so each underscore stands alone between two digits.
   */
  predicate DigitPart(s: string) {
    s != [] && IsDigit(s[0]) && IsDigit(s[|s| - 1]) &&
    (forall k :: 0 <= k < |s| ==> IsDigit(s[k]) || s[k] == '_') &&
    (forall i, j :: 0 <= i < |s| && 0 <= j < |s| && j == i + 1 ==> s[i] != '_' || s[j] != '_')
  }

  /** `digits`, `digits.`, `.digits` or `digits.digits`. */
  predicate Mantissa(m: string) {
    var p := FirstOf(m, {'.'});
    if p == |m| then DigitPart(m)
    else
      var whole, fraction := m[..p], m[p + 1..];
      (whole != [] || fraction != []) &&
      (whole == [] || DigitPart(whole)) && (fraction == [] || DigitPart(fraction))
  }

  /** A mantissa, then optionally `e` or `E`, an optional sign and digits. */
  predicate DecimalLiteral(u: string) {
    var e := FirstOf(u, {'e', 'E'});
    Mantissa(u[..e]) && (e == |u| || DigitPart(Unsigned(u[e + 1..])))
  }

  predicate SpecialWord(w: string) {
    w == "inf" || w == "infinity" || w == "nan"
  }

  /** `float(s)` returns instead of raising `ValueError`. */
  predicate IsFloatText(s: string) {
    var u := Unsigned(Strip(s));
    SpecialWord(Lower(u)) || DecimalLiteral(u)
  }

  /** Digits, a point and digits, as in `float("1.25")`, make a float. */
  lemma FractionIsFloat(a: string, b: string)
    requires a != [] && forall k :: 0 <= k < |a| ==> IsDigit(a[k])
    requires b != [] && forall k :: 0 <= k < |b| ==> IsDigit(b[k])
    ensures IsFloatText(a + "." + b)
  {
    var u := a + "." + b;
    PointSplit(a, b);
    DigitsArePart(a);
    DigitsArePart(b);
    PlainText(u);
  }

  /** A second decimal point, as in `float("1.2.3")`, is refused. */
  lemma TwoPointsRefused(a: string, b: string, c: string)
    requires a != [] && forall k :: 0 <= k < |a| ==> IsDigit(a[k])
    requires b != [] && forall k :: 0 <= k < |b| ==> IsDigit(b[k])
    requires c != [] && forall k :: 0 <= k < |c| ==> IsDigit(c[k])
    ensures !IsFloatText(a + "." + b + "." + c)
  {
    var rest := b + "." + c;
    PointSplit(a, rest);
    assert a + "." + rest == a + "." + b + "." + c;
    assert rest[|b|] == '.';
    NotDigitPart(rest, |b|);
    PlainText(a + "." + rest);
  }

  /** Digits, `e` and digits, as in `float("1e3")`, make a float. */
  lemma ExponentIsFloat(a: string, b: string)
    requires a != [] && forall k :: 0 <= k < |a| ==> IsDigit(a[k])
    requires b != [] && forall k :: 0 <= k < |b| ==> IsDigit(b[k])
    ensures IsFloatText(a + "e" + b)
  {
    var u := a + "e" + b;
    assert u[0] == a[0] && u[|u| - 1] == b[|b| - 1];
    FirstOfAt(u, {'e', 'E'}, |a|);
    assert u[..|a|] == a && u[|a| + 1..] == b;
    FirstOfAbsent(a, {'.'});
    assert a[..|a|] == a;
    DigitsArePart(a);
    DigitsArePart(b);
    assert Unsigned(b) == b;
    PlainText(u);
  }

  /** A single underscore between digits is allowed, as in `float("1_000")`. */
  lemma SingleUnderscore(a: string, b: string)
    requires a != [] && forall k :: 0 <= k < |a| ==> IsDigit(a[k])
    requires b != [] && forall k :: 0 <= k < |b| ==> IsDigit(b[k])
    ensures IsFloatText(a + "_" + b)
  {
    WithoutPointOrExponent(a, "_", b);
    UnderscorePart(a, b);
    PlainText(a + "_" + b);
  }

  /** Two underscores in a row are refused, as in `float("1__0")`. */
  lemma DoubleUnderscore(a: string, b: string)
    requires a != [] && forall k :: 0 <= k < |a| ==> IsDigit(a[k])
    requires b != [] && forall k :: 0 <= k < |b| ==> IsDigit(b[k])
    ensures !IsFloatText(a + "__" + b)
  {
    var u := a + "__" + b;
    WithoutPointOrExponent(a, "__", b);
    assert u[|a|] == '_' && u[|a| + 1] == '_';
    PlainText(u);
  }

  lemma UnderscorePart(a: string, b: string)
    requires a != [] && forall k :: 0 <= k < |a| ==> IsDigit(a[k])
    requires b != [] && forall k :: 0 <= k < |b| ==> IsDigit(b[k])
    ensures DigitPart(a + "_" + b)
  {
    var u := a + "_" + b;
    forall i, j | 0 <= i < |u| && 0 <= j < |u| && j == i + 1
      ensures u[i] != '_' || u[j] != '_'
    {
      if i == |a| {
        assert u[j] == b[0];
      } else if i < |a| {
        assert u[i] == a[i];
      } else {
        assert u[i] == b[i - |a| - 1];
      }
    }
    forall k | 0 <= k < |u| ensures IsDigit(u[k]) || u[k] == '_' {
      if k > |a| {
        assert u[k] == b[k - |a| - 1];
      }
    }
  }

  /** Digits around a run of underscores hold no point and no exponent mark: the literal is one digit part. */
  lemma WithoutPointOrExponent(a: string, mid: string, b: string)
    requires a != [] && forall k :: 0 <= k < |a| ==> IsDigit(a[k])
    requires b != [] && forall k :: 0 <= k < |b| ==> IsDigit(b[k])
    requires forall k :: 0 <= k < |mid| ==> mid[k] == '_'
    ensures var u := a + mid + b;
      u[0] == a[0] && u[|u| - 1] == b[|b| - 1] && (DecimalLiteral(u) <==> DigitPart(u))
  {
    var u := a + mid + b;
    NoneIn(a, mid, {'e', 'E'});
    NoneIn(a + mid, b, {'e', 'E'});
    FirstOfAbsent(u, {'e', 'E'});
    NoneIn(a, mid, {'.'});
    NoneIn(a + mid, b, {'.'});
    FirstOfAbsent(u, {'.'});
    assert u[..|u|] == u;
  }

  /**
   * Digits, a point, then digits and points: the mantissa is split at that first point,
   * and no exponent follows.
   */
  lemma PointSplit(a: string, b: string)
    requires a != [] && forall k :: 0 <= k < |a| ==> IsDigit(a[k])
    requires b != [] && IsDigit(b[|b| - 1]) && forall k :: 0 <= k < |b| ==> IsDigit(b[k]) || b[k] == '.'
    ensures var u := a + "." + b;
      u[0] == a[0] && u[|u| - 1] == b[|b| - 1] &&
      (DecimalLiteral(u) <==> DigitPart(a) && DigitPart(b))
  {
    var u := a + "." + b;
    NoneIn(a, ".", {'e', 'E'});
    NoneIn(a + ".", b, {'e', 'E'});
    FirstOfAbsent(u, {'e', 'E'});
    FirstOfAt(u, {'.'}, |a|);
    assert u[..|u|] == u && u[..|a|] == a && u[|a| + 1..] == b;
  }

  /** Text starting with a digit and ending with one is a float exactly when it is a decimal literal. */
  lemma PlainText(u: string)
    requires u != [] && IsDigit(u[0]) && IsDigit(u[|u| - 1])
    ensures IsFloatText(u) <==> DecimalLiteral(u)
  {
    StripUnpadded(u);
    assert Unsigned(u) == u;
    assert Lower(u)[0] == u[0];
    assert "inf"[0] == 'i' && "infinity"[0] == 'i' && "nan"[0] == 'n';
  }

  /** A digit part holds only digits and underscores. */
  lemma NotDigitPart(s: string, k: nat)
    requires k < |s| && !IsDigit(s[k]) && s[k] != '_'
    ensures !DigitPart(s)
  {
  }

  /** `FirstOf` finds the first character of the set. */
  lemma {:induction false} FirstOfAt(s: string, cs: set<char>, i: nat)
    requires i < |s| && s[i] in cs && forall k :: 0 <= k < i ==> s[k] !in cs
    ensures FirstOf(s, cs) == i
  {
    if i > 0 {
      FirstOfAt(s[1..], cs, i - 1);
    }
  }

  /** `nan` is a float. */
  lemma NanExample()
    ensures IsFloatText("nan")
  {
    StripUnpadded("nan");
    assert Unsigned("nan") == "nan";
    assert Lower("nan") == "nan";
  }

  /** `-Inf` is a float: a sign, then the word in any case. */
  lemma InfinityExample()
    ensures IsFloatText("-Inf")
  {
    StripUnpadded("-Inf");
    assert Unsigned("-Inf") == "Inf";
    assert Lower("Inf")[0] == 'i';
    assert Lower("Inf") == "inf";
  }

  /** A word such as `abc` is not a float. */
  lemma WordExample()
    ensures !IsFloatText("abc")
  {
    StripUnpadded("abc");
    WithoutDigits("abc");
    assert Unsigned("abc") == "abc";
    assert Lower("abc")[0] == 'a';
  }

  /** `strip()` leaves a string without surrounding white space unchanged. */
  lemma StripUnpadded(s: string)
    requires s != [] && !IsSpace(s[0]) && !IsSpace(s[|s| - 1])
    ensures Strip(s) == s
  {
    assert s[0..] == s;
    assert s[..|s|] == s;
  }

  /** Every character left by `Strip` and `Unsigned` comes from the original string. */
  lemma {:induction false} StripKeepsCharacters(s: string)
    ensures forall k :: 0 <= k < |Unsigned(Strip(s))| ==> Unsigned(Strip(s))[k] in s
  {
    var rest := s[LeadingSpaces(s)..];
    var t := Strip(s);
    assert t == rest[..|rest| - TrailingSpaces(rest)];
    forall k | 0 <= k < |Unsigned(t)| ensures Unsigned(t)[k] in s {
      var j := if Unsigned(t) == t then k else k + 1;
      assert Unsigned(t)[k] == t[j] == rest[j] == s[LeadingSpaces(s) + j];
    }
  }

  /** A run of plain digits is a digit part. */
  lemma DigitsArePart(s: string)
    requires s != [] && forall k :: 0 <= k < |s| ==> IsDigit(s[k])
    ensures DigitPart(s)
  {
  }

  /** No character of `x + y` is in `cs` when none of `x` and none of `y` is. */
  lemma NoneIn(x: string, y: string, cs: set<char>)
    requires forall k :: 0 <= k < |x| ==> x[k] !in cs
    requires forall k :: 0 <= k < |y| ==> y[k] !in cs
    ensures forall k :: 0 <= k < |x + y| ==> (x + y)[k] !in cs
  {
    forall k | 0 <= k < |x + y| ensures (x + y)[k] !in cs {
      if k >= |x| {
        assert (x + y)[k] == y[k - |x|];
      }
    }
  }

  /** A decimal literal holds at least one digit. */
  lemma DecimalHasDigit(u: string)
    requires DecimalLiteral(u)
    ensures exists k :: 0 <= k < |u| && IsDigit(u[k])
  {
    var m := u[..FirstOf(u, {'e', 'E'})];
    var p := FirstOf(m, {'.'});
    if p == |m| {
      assert u[0] == m[0];
    } else if p > 0 {
      assert u[0] == m[..p][0];
    } else {
      assert u[p + 1] == m[p + 1..][0];
    }
  }

  /** A string without digits is a float only as `inf`, `infinity` or `nan`, so text labels are refused. */
  lemma WithoutDigits(s: string)
    requires forall k :: 0 <= k < |s| ==> !IsDigit(s[k])
    ensures IsFloatText(s) <==> SpecialWord(Lower(Unsigned(Strip(s))))
  {
    var u := Unsigned(Strip(s));
    if DecimalLiteral(u) {
      DecimalHasDigit(u);
      StripKeepsCharacters(s);
      assert false;
    }
  }

  /** A digit run, with or without surrounding white space, is a float. */
  lemma DigitsAreFloat(s: string, pad: string)
    requires s != [] && forall k :: 0 <= k < |s| ==> IsDigit(s[k])
    requires forall k :: 0 <= k < |pad| ==> IsSpace(pad[k])
    ensures IsFloatText(pad + s + pad)
  {
    StripPadded(s, pad);
    assert Unsigned(s) == s;
    FirstOfAbsent(s, {'e', 'E'});
    FirstOfAbsent(s, {'.'});
    DigitsArePart(s);
    assert s[..|s|] == s;
  }

  /** `strip()` removes white space added around a string that neither starts nor ends with any. */
  lemma StripPadded(s: string, pad: string)
    requires s != [] && !IsSpace(s[0]) && !IsSpace(s[|s| - 1])
    requires forall k :: 0 <= k < |pad| ==> IsSpace(pad[k])
    ensures Strip(pad + s + pad) == s
  {
    var t := pad + s + pad;
    assert LeadingSpaces(t) == |pad| by {
      assert (s + pad)[0] == s[0];
      LeadingSpacesOf(pad, s + pad);
      assert t == pad + (s + pad);
    }
    var rest := t[|pad|..];
    assert rest == s + pad;
    TrailingSpacesOf(s, pad);
  }

  lemma {:induction false} LeadingSpacesOf(pad: string, s: string)
    requires forall k :: 0 <= k < |pad| ==> IsSpace(pad[k])
    requires s != [] && !IsSpace(s[0])
    ensures LeadingSpaces(pad + s) == |pad|
  {
    if pad != [] {
      assert (pad + s)[1..] == pad[1..] + s;
      LeadingSpacesOf(pad[1..], s);
    }
  }

  lemma {:induction false} TrailingSpacesOf(s: string, pad: string)
    requires forall k :: 0 <= k < |pad| ==> IsSpace(pad[k])
    requires s != [] && !IsSpace(s[|s| - 1])
    ensures TrailingSpaces(s + pad) == |pad|
  {
    if pad != [] {
      assert (s + pad)[..|s + pad| - 1] == s + pad[..|pad| - 1];
      TrailingSpacesOf(s, pad[..|pad| - 1]);
    }
  }

  lemma FirstOfAbsent(s: string, cs: set<char>)
    requires forall k :: 0 <= k < |s| ==> s[k] !in cs
    ensures FirstOf(s, cs) == |s|
  {
  }
}
