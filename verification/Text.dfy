/** Strings as sequences of characters: the lexicographic order the database uses on text columns, and the
    few functions of Go's `strings` package that the modelled code calls. */
module Text {

  // ---------------------------------------------------------------- order

  /** Binary collation: the first differing character decides, and a proper prefix comes first. */
  predicate Less(a: string, b: string) {
    b != [] && (a == [] || a[0] < b[0] || (a[0] == b[0] && Less(a[1..], b[1..])))
  }

  predicate AtMost(a: string, b: string) {
    !Less(b, a)
  }

  /** Two texts that part ways at position `k` are ordered by the characters there. */
  lemma {:induction false} DivergeAt(a: string, b: string, k: nat)
    requires k < |a| && k < |b| && a[..k] == b[..k] && a[k] != b[k]
    ensures Less(a, b) <==> a[k] < b[k]
  {
    if k == 0 {
    } else {
      assert a[0] == a[..k][0] && b[0] == b[..k][0];
      assert a[1..][..k - 1] == a[..k][1..] && b[1..][..k - 1] == b[..k][1..];
      DivergeAt(a[1..], b[1..], k - 1);
    }
  }

  /** A common prefix does not influence the order. */
  lemma {:induction false} SharedPrefix(p: string, a: string, b: string)
    ensures Less(p + a, p + b) <==> Less(a, b)
  {
    if p == [] {
      assert p + a == a && p + b == b;
    } else {
      assert (p + a)[1..] == p[1..] + a && (p + b)[1..] == p[1..] + b;
      SharedPrefix(p[1..], a, b);
    }
  }

  /** Different texts of one length decide the order whatever follows them. */
  lemma {:induction false} FixedWidth(a: string, b: string, x: string, y: string)
    requires |a| == |b| && a != b
    ensures Less(a + x, b + y) <==> Less(a, b)
  {
    var k := FirstDifference(a, b);
    assert (a + x)[..k] == a[..k] && (b + y)[..k] == b[..k];
    DivergeAt(a, b, k);
    DivergeAt(a + x, b + y, k);
  }

  lemma {:induction false} FirstDifference(a: string, b: string) returns (k: nat)
    requires |a| == |b| && a != b
    ensures k < |a| && a[..k] == b[..k] && a[k] != b[k]
  {
    if a[0] != b[0] {
      k := 0;
    } else {
      assert a == [a[0]] + a[1..] && b == [b[0]] + b[1..];
      var j := FirstDifference(a[1..], b[1..]);
      k := j + 1;
      assert a[..k] == [a[0]] + a[1..][..j] && b[..k] == [b[0]] + b[1..][..j];
    }
  }

  lemma {:induction false} LessIsIrreflexive(a: string)
    ensures !Less(a, a)
  {
    if a == [] {
    } else {
      LessIsIrreflexive(a[1..]);
    }
  }

  /** A text not above a smaller one is itself not above. */
  lemma {:induction false} AtMostThenLess(a: string, b: string, c: string)
    requires AtMost(a, b) && Less(b, c)
    ensures AtMost(a, c)
  {
    if b == [] || a == [] || a[0] != b[0] || b[0] != c[0] {
    } else {
      AtMostThenLess(a[1..], b[1..], c[1..]);
    }
  }

  // ---------------------------------------------------------------- trimming

  /** `unicode.IsSpace`. */
  predicate IsSpace(c: char) {
    || '\t' <= c <= '\r' || c == ' ' || c == '\U{0085}' || c == '\U{00A0}' || c == '\U{1680}'
    || '\U{2000}' <= c <= '\U{200A}' || c == '\U{2028}' || c == '\U{2029}' || c == '\U{202F}'
    || c == '\U{205F}' || c == '\U{3000}'
  }

  function TrimLeft(s: string): (t: string)
    ensures t != [] ==> !IsSpace(t[0])
  {
    if s != [] && IsSpace(s[0]) then TrimLeft(s[1..]) else s
  }

  function TrimRight(s: string): (t: string)
    ensures t <= s
    ensures t != [] ==> !IsSpace(t[|t| - 1])
  {
    if s != [] && IsSpace(s[|s| - 1]) then TrimRight(s[..|s| - 1]) else s
  }

  /** `strings.TrimSpace`. */
  function TrimSpace(s: string): (t: string)
    ensures t != [] ==> !IsSpace(t[0]) && !IsSpace(t[|t| - 1])
  {
    TrimRight(TrimLeft(s))
  }

  // ---------------------------------------------------------------- searching

  /** `strings.HasPrefix`. */
  predicate HasPrefix(s: string, p: string) {
    p <= s
  }

  /** `strings.HasSuffix`. */
  predicate HasSuffix(s: string, p: string) {
    |p| <= |s| && s[|s| - |p|..] == p
  }

  /** `strings.Contains`. */
  predicate Contains(s: string, p: string) {
    p <= s || (s != [] && Contains(s[1..], p))
  }
}
