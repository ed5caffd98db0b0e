/**
 The parts of Go's `strings` package that the agent's decisions depend on.  A string is a sequence of
 Unicode code points; byte offsets and Unicode case folding are not modelled.
 */
module Strings {

  /** Go's `unicode.IsSpace`. */
  predicate IsSpace(c: char) {
    || '\t' <= c <= '\r'
    || c == ' '
    || c == '\U{0085}' || c == '\U{00A0}' || c == '\U{1680}'
    || '\U{2000}' <= c <= '\U{200A}'
    || c == '\U{2028}' || c == '\U{2029}' || c == '\U{202F}' || c == '\U{205F}' || c == '\U{3000}'
  }

  predicate Blank(s: string) {
    forall i | 0 <= i < |s| :: IsSpace(s[i])
  }

  /** No white space at either end. */
  predicate Trimmed(s: string) {
    s != "" ==> !IsSpace(s[0]) && !IsSpace(s[|s| - 1])
  }

  function TrimLeft(s: string): string {
    if s != "" && IsSpace(s[0]) then TrimLeft(s[1..]) else s
  }

  function TrimRight(s: string): string {
    if s != "" && IsSpace(s[|s| - 1]) then TrimRight(s[..|s| - 1]) else s
  }

  /** `strings.TrimSpace` */
  function Trim(s: string): string {
    TrimRight(TrimLeft(s))
  }

  lemma {:induction false} TrimLeftSplit(s: string) returns (l: string)
    ensures Blank(l) && s == l + TrimLeft(s)
    ensures TrimLeft(s) != "" ==> !IsSpace(TrimLeft(s)[0])
  {
    if s != "" && IsSpace(s[0]) {
      var l' := TrimLeftSplit(s[1..]);
      l := [s[0]] + l';
    } else {
      l := "";
    }
  }

  lemma {:induction false} TrimRightSplit(s: string) returns (r: string)
    ensures Blank(r) && s == TrimRight(s) + r
    ensures TrimRight(s) != "" ==> !IsSpace(TrimRight(s)[|TrimRight(s)| - 1])
  {
    if s != "" && IsSpace(s[|s| - 1]) {
      var n := |s| - 1;
      var r' := TrimRightSplit(s[..n]);
      r := r' + [s[n]];
      assert TrimRight(s) == TrimRight(s[..n]);
      calc {
        s;
        s[..n] + [s[n]];
        (TrimRight(s) + r') + [s[n]];
        TrimRight(s) + r;
      }
    } else {
      r := "";
    }
  }

  /** Trim cuts white space off both ends and nothing else, and none is left at either end. */
  lemma TrimSplit(s: string) returns (l: string, r: string)
    ensures Blank(l) && Blank(r) && s == l + Trim(s) + r
    ensures Trimmed(Trim(s))
  {
    l := TrimLeftSplit(s);
    r := TrimRightSplit(TrimLeft(s));
    if Trim(s) != "" {
      assert Trim(s)[0] == TrimLeft(s)[0];
    }
  }

  lemma {:induction false} TrimLeftBlank(l: string, m: string)
    requires Blank(l)
    ensures TrimLeft(l + m) == TrimLeft(m)
  {
    if l == "" {
      assert l + m == m;
    } else {
      assert (l + m)[1..] == l[1..] + m;
      TrimLeftBlank(l[1..], m);
    }
  }

  lemma {:induction false} TrimRightBlank(m: string, r: string)
    requires Blank(r)
    ensures TrimRight(m + r) == TrimRight(m)
  {
    if r == "" {
      assert m + r == m;
    } else {
      var n := |r| - 1;
      assert (m + r)[..|m + r| - 1] == m + r[..n];
      TrimRightBlank(m, r[..n]);
    }
  }

  /** A trimmed text between blanks is what Trim finds: with TrimSplit, this determines Trim. */
  lemma TrimUnique(l: string, m: string, r: string)
    requires Blank(l) && Blank(r) && Trimmed(m)
    ensures Trim(l + m + r) == m
  {
    assert l + m + r == l + (m + r);
    TrimLeftBlank(l, m + r);
    if m == "" {
      assert m + r == r + "";
      TrimLeftBlank(r, "");
    } else {
      assert (m + r)[0] == m[0];
      TrimRightBlank(m, r);
    }
  }

  lemma TrimOfTrimmed(m: string)
    requires Trimmed(m)
    ensures Trim(m) == m
  {
    assert m == "" + m + "";
    TrimUnique("", m, "");
  }

  lemma TrimEmptyIffBlank(s: string)
    ensures Trim(s) == "" <==> Blank(s)
  {
    var l, r := TrimSplit(s);
    if Blank(s) {
      assert s == "" + "" + s;
      TrimUnique("", "", s);
    }
  }

  predicate HasSuffix(s: string, suffix: string) {
    |suffix| <= |s| && s[|s| - |suffix|..] == suffix
  }

  lemma HasSuffixMeans(s: string, suffix: string)
    ensures HasSuffix(s, suffix) <==> exists p :: s == p + suffix
  {
    if HasSuffix(s, suffix) {
      assert s == s[..|s| - |suffix|] + suffix;
    }
  }

  /** Go's `<` on strings: the byte order of UTF-8 is the order of code points. */
  predicate Less(a: string, b: string) {
    b != "" && (a == "" || a[0] < b[0] || (a[0] == b[0] && Less(a[1..], b[1..])))
  }

  lemma {:induction false} LessTrichotomy(a: string, b: string)
    ensures (Less(a, b) || a == b || Less(b, a)) && !Less(a, a) && !(Less(a, b) && Less(b, a))
  {
    if a != "" {
      LessTrichotomy(a[1..], a[1..]);
    }
    if a != "" && b != "" {
      LessTrichotomy(a[1..], b[1..]);
      if a[0] == b[0] && a[1..] == b[1..] {
        assert a == [a[0]] + a[1..] == b;
      }
    }
  }

  lemma {:induction false} LessTransitive(a: string, b: string, c: string)
    requires Less(a, b) && Less(b, c)
    ensures Less(a, c)
  {
    if a != "" && a[0] == b[0] == c[0] {
      LessTransitive(a[1..], b[1..], c[1..]);
    }
  }

  /** Strings of one length compare by their common prefix first. */
  lemma {:induction false} LessConcat(a: string, b: string, x: string, y: string)
    requires |a| == |b|
    ensures Less(a + x, b + y) <==> Less(a, b) || (a == b && Less(x, y))
  {
    if a == "" {
      assert a + x == x && b + y == y;
    } else {
      assert (a + x)[1..] == a[1..] + x && (b + y)[1..] == b[1..] + y;
      LessConcat(a[1..], b[1..], x, y);
      if a[0] == b[0] && a[1..] == b[1..] {
        assert a == [a[0]] + a[1..] == b;
      }
    }
  }
}
