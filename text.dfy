/**
 * Text helpers shared by the model: ASCII case mapping, the code-point order in which
 * JavaScript and Python compare strings, and the splitting functions the source uses
 * (`s.split(sep)[0]`, `s.rsplit('.', 1)[1]`).
 */
module Text {

  /** Upper case of one character (`toUpperCase`), for ASCII letters. */
  function UpperChar(c: char): char {
    if 'a' <= c <= 'z' then (c as int - 32) as char else c
  }

  /** Lower case of one character (`str.lower`), for ASCII letters. */
  function LowerChar(c: char): char {
    if 'A' <= c <= 'Z' then (c as int + 32) as char else c
  }

  function Upper(s: string): (r: string)
    ensures |r| == |s|
    ensures forall i :: 0 <= i < |s| ==> r[i] == UpperChar(s[i])
  {
    if s == [] then [] else [UpperChar(s[0])] + Upper(s[1..])
  }

  function Lower(s: string): (r: string)
    ensures |r| == |s|
    ensures forall i :: 0 <= i < |s| ==> r[i] == LowerChar(s[i])
  {
    if s == [] then [] else [LowerChar(s[0])] + Lower(s[1..])
  }

  /** `a < b` on strings: lexicographic order of character codes. */
  predicate Below(a: string, b: string) {
    |b| > 0 && (|a| == 0 || a[0] < b[0] || (a[0] == b[0] && Below(a[1..], b[1..])))
  }

  predicate AtMost(a: string, b: string) {
    a == b || Below(a, b)
  }

  lemma {:induction false} BelowIrreflexive(a: string)
    ensures !Below(a, a)
  {
    if |a| > 0 {
      BelowIrreflexive(a[1..]);
    }
  }

  lemma {:induction false} BelowAsymmetric(a: string, b: string)
    ensures Below(a, b) ==> !Below(b, a)
  {
    if |a| > 0 && |b| > 0 && a[0] == b[0] {
      BelowAsymmetric(a[1..], b[1..]);
    }
  }

  lemma {:induction false} BelowTransitive(a: string, b: string, c: string)
    requires Below(a, b) && Below(b, c)
    ensures Below(a, c)
  {
    if |a| > 0 && a[0] == b[0] && b[0] == c[0] {
      BelowTransitive(a[1..], b[1..], c[1..]);
    }
  }

  /** Two different strings are always ordered one way or the other. */
  lemma {:induction false} BelowTotal(a: string, b: string)
    ensures a == b || Below(a, b) || Below(b, a)
  {
    if |a| > 0 && |b| > 0 && a[0] == b[0] {
      BelowTotal(a[1..], b[1..]);
      if a[1..] == b[1..] {
        assert a == [a[0]] + a[1..] && b == [b[0]] + b[1..];
      }
    }
  }

  lemma AtMostTransitive(a: string, b: string, c: string)
    requires AtMost(a, b) && AtMost(b, c)
    ensures AtMost(a, c)
  {
    if a != b && b != c {
      BelowTransitive(a, b, c);
    }
  }

  lemma AtMostTotal(a: string, b: string)
    ensures AtMost(a, b) || AtMost(b, a)
  {
    BelowTotal(a, b);
  }

  /** `s.split(sep)[0]`: the text before the first `sep`, or all of `s` when there is none. */
  function Before(s: string, sep: char): (r: string)
    ensures r <= s
    ensures sep !in r
    ensures |r| < |s| ==> s[|r|] == sep
  {
    if s == [] then []
    else if s[0] == sep then []
    else [s[0]] + Before(s[1..], sep)
  }

  /** `s.rsplit(sep, 1)[1]`: the text after the last `sep`; `s` must contain one. */
  function AfterLast(s: string, sep: char): (r: string)
    requires sep in s
    ensures |r| < |s| && s[|s| - |r| - 1] == sep
    ensures r == s[|s| - |r|..]
    ensures sep !in r
  {
    if s[|s| - 1] == sep then []
    else AfterLast(s[..|s| - 1], sep) + [s[|s| - 1]]
  }

  /** The text after the last `sep` of `stem + [sep] + tail` is `tail` when `tail` has no `sep`. */
  lemma {:induction false} AfterLastOf(stem: string, sep: char, tail: string)
    requires sep !in tail
    ensures AfterLast(stem + [sep] + tail, sep) == tail
  {
    var s := stem + [sep] + tail;
    if tail == [] {
      assert s[|s| - 1] == sep;
    } else {
      var shorter := tail[..|tail| - 1];
      assert s[..|s| - 1] == stem + [sep] + shorter;
      assert s[|s| - 1] == tail[|tail| - 1];
      AfterLastOf(stem, sep, shorter);
      assert tail == shorter + [tail[|tail| - 1]];
    }
  }

  /** The text before the first `sep` of `head + [sep] + tail` is `head` when `head` has no `sep`. */
  lemma {:induction false} BeforeOf(head: string, sep: char, tail: string)
    requires sep !in head
    ensures Before(head + [sep] + tail, sep) == head
  {
    var s := head + [sep] + tail;
    if head != [] {
      assert s[1..] == head[1..] + [sep] + tail;
      BeforeOf(head[1..], sep, tail);
    }
  }
}
