/** What the splitter's tests on single lines mean, in terms of how the line is made up. */
module SqlLines {
  import opened Text

  // ---------------------------------------------------------------- trimming

  predicate AllSpace(s: string) {
    forall i :: 0 <= i < |s| ==> IsSpace(s[i])
  }

  lemma {:induction false} Leading(s: string) returns (x: string)
    ensures s == x + TrimLeft(s) && AllSpace(x)
    decreases |s|
  {
    if s == "" || !IsSpace(s[0]) {
      x := "";
    } else {
      var rest := Leading(s[1..]);
      x := [s[0]] + rest;
    }
  }

  lemma {:induction false} Trailing(s: string) returns (y: string)
    ensures s == TrimRight(s) + y && AllSpace(y)
    decreases |s|
  {
    if s == "" || !IsSpace(s[|s| - 1]) {
      y := "";
    } else {
      var rest := Trailing(s[..|s| - 1]);
      y := rest + [s[|s| - 1]];
    }
  }

  /** Trimming takes away spaces at both ends and nothing else. */
  lemma TrimTakesSpaces(s: string) returns (x: string, y: string)
    ensures s == x + TrimSpace(s) + y && AllSpace(x) && AllSpace(y)
  {
    x := Leading(s);
    y := Trailing(TrimLeft(s));
    assert x + (TrimSpace(s) + y) == x + TrimSpace(s) + y;
  }

  lemma {:induction false} TrimLeftDrops(x: string, t: string)
    requires AllSpace(x) && (t == "" || !IsSpace(t[0]))
    ensures TrimLeft(x + t) == t
    decreases |x|
  {
    if x == "" {
      assert x + t == t;
    } else {
      assert (x + t)[1..] == x[1..] + t;
      TrimLeftDrops(x[1..], t);
    }
  }

  lemma {:induction false} TrimRightDrops(t: string, y: string)
    requires AllSpace(y) && (t == "" || !IsSpace(t[|t| - 1]))
    ensures TrimRight(t + y) == t
    decreases |y|
  {
    if y == "" {
      assert t + y == t;
    } else {
      assert (t + y)[..|t + y| - 1] == t + y[..|y| - 1];
      TrimRightDrops(t, y[..|y| - 1]);
    }
  }

  /** And it takes away all of them. */
  lemma TrimLeavesMiddle(x: string, middle: string, y: string)
    requires AllSpace(x) && AllSpace(y) && middle != "" && !IsSpace(middle[0]) && !IsSpace(middle[|middle| - 1])
    ensures TrimSpace(x + middle + y) == middle
  {
    assert x + middle + y == x + (middle + y);
    TrimLeftDrops(x, middle + y);
    TrimRightDrops(middle, y);
  }

  /** The characters taken away are those with Unicode's White_Space property. */
  lemma SpacesAreWhiteSpace(s: string)
    ensures AllSpace(s) <==>
            forall i :: 0 <= i < |s| ==>
              s[i] as int in {0x9, 0xA, 0xB, 0xC, 0xD, 0x20, 0x85, 0xA0, 0x1680, 0x2000, 0x2001, 0x2002, 0x2003, 0x2004,
                              0x2005, 0x2006, 0x2007, 0x2008, 0x2009, 0x200A, 0x2028, 0x2029, 0x202F, 0x205F, 0x3000}
  {
  }

  lemma BlankIsAllSpace(s: string)
    ensures TrimSpace(s) == "" <==> AllSpace(s)
  {
    if AllSpace(s) {
      TrimLeftDrops(s, "");
      assert s + "" == s;
    } else {
      var x, y := TrimTakesSpaces(s);
      assert TrimSpace(s) == "" ==> s == x + y;
    }
  }

  lemma EndsOfPart(a: string, part: string, b: string)
    requires part != "" && !IsSpace(part[0]) && !IsSpace(part[|part| - 1])
    requires (a != "" ==> !IsSpace(a[0])) && (b != "" ==> !IsSpace(b[|b| - 1]))
    ensures var middle := a + part + b; middle != "" && !IsSpace(middle[0]) && !IsSpace(middle[|middle| - 1])
  {
    hide IsSpace;
  }

  /** A part of the text that neither begins nor ends with a space survives. */
  lemma TrimKeepsPart(a: string, part: string, b: string) returns (a': string, b': string)
    requires part != "" && !IsSpace(part[0]) && !IsSpace(part[|part| - 1])
    ensures TrimSpace(a + part + b) == a' + part + b' && b' <= b && AllSpace(b[|b'|..])
  {
    hide TrimSpace, TrimLeft, TrimRight, IsSpace, AllSpace;
    var x := Leading(a);
    a' := TrimLeft(a);
    var y := Trailing(b);
    b' := TrimRight(b);
    assert b[|b'|..] == y;
    EndsOfPart(a', part, b');
    TrimLeavesMiddle(x, a' + part + b', y);
    assert a + part + b == x + (a' + part + b') + y;
  }

  // ---------------------------------------------------------------- the tests

  /** A semicolon, and nothing but spaces after it. */
  ghost predicate EndsWithSemicolon(line: string) {
    exists x, y :: line == x + ";" + y && AllSpace(y)
  }

  /** A "$$" somewhere. */
  ghost predicate HasMarker(line: string) {
    exists x, y :: line == x + "$$" + y
  }

  /** Something other than spaces, which does not begin a comment. */
  ghost predicate IsContent(line: string) {
    exists x, y :: line == x + y && AllSpace(x) && y != "" && !IsSpace(y[0]) && !("--" <= y)
  }

  /** The letters of the word, in either case; upper-casing also takes a dotless i and a long s for them. */
  predicate IsLetterOf(c: char, letter: char) {
    || c == letter
    || ('A' <= letter <= 'Z' && c as int == letter as int + 32)
    || (letter == 'I' && c == '\U{0131}')
    || (letter == 'S' && c == '\U{017F}')
  }

  predicate SameLetters(s: string, word: string) {
    |s| == |word| && forall i :: 0 <= i < |s| ==> IsLetterOf(s[i], word[i])
  }

  /** "CREATE OR REPLACE FUNCTION" or "CREATE FUNCTION" somewhere, in any case. */
  ghost predicate NamesFunction(line: string) {
    exists a, w, b :: line == a + w + b
                      && (SameLetters(w, "CREATE OR REPLACE FUNCTION") || SameLetters(w, "CREATE FUNCTION"))
  }

  lemma SemicolonTest(line: string)
    ensures HasSuffix(TrimSpace(line), ";") <==> EndsWithSemicolon(line)
  {
    hide TrimSpace, TrimLeft;
    var t, semicolon := TrimSpace(line), ";";
    if HasSuffix(t, semicolon) {
      var x, y := TrimTakesSpaces(line);
      assert t == t[..|t| - 1] + semicolon;
      assert line == (x + t[..|t| - 1]) + semicolon + y;
    }
    if x, y :| line == x + semicolon + y && AllSpace(y) {
      TrimToSemicolon(x, y);
    }
  }

  lemma TrimToSemicolon(x: string, y: string)
    requires AllSpace(y)
    ensures HasSuffix(TrimSpace(x + ";" + y), ";")
  {
    hide TrimSpace;
    var lead := Leading(x);
    var middle := TrimLeft(x) + ";";
    assert x + ";" + y == lead + middle + y;
    TrimLeavesMiddle(lead, middle, y);
  }

  lemma {:induction false} ContainsFinds(s: string, p: string) returns (a: string, b: string)
    requires Contains(s, p)
    ensures s == a + p + b
    decreases |s|
  {
    if p <= s {
      a, b := "", s[|p|..];
    } else {
      var a1, b1 := ContainsFinds(s[1..], p);
      a, b := [s[0]] + a1, b1;
      assert s == [s[0]] + (a1 + p + b1);
    }
  }

  lemma {:induction false} ContainsPart(a: string, p: string, b: string)
    requires p != ""
    ensures Contains(a + p + b, p)
    decreases |a|
  {
    if a == "" {
      assert a + p + b == p + b;
    } else {
      assert (a + p + b)[1..] == a[1..] + p + b;
      ContainsPart(a[1..], p, b);
    }
  }

  lemma MarkerTest(line: string)
    ensures Contains(TrimSpace(line), "$$") <==> HasMarker(line)
  {
    hide Contains, TrimSpace;
    var marker := "$$";
    if Contains(TrimSpace(line), marker) {
      var x, y := TrimTakesSpaces(line);
      var a, b := ContainsFinds(TrimSpace(line), marker);
      assert line == (x + a) + marker + (b + y);
    }
    if x, y :| line == x + marker + y {
      var a, b := TrimKeepsPart(x, marker, y);
      ContainsPart(a, marker, b);
    }
  }

  lemma ContentTest(line: string)
    ensures TrimSpace(line) != "" && !HasPrefix(TrimSpace(line), "--") <==> IsContent(line)
  {
    var t := TrimSpace(line);
    if t != "" && !HasPrefix(t, "--") {
      var x, y := TrimTakesSpaces(line);
      assert line == x + (t + y);
      assert !("--" <= t + y) by {
        NoDashes(t, y);
      }
    }
    if x, y :| line == x + y && AllSpace(x) && y != "" && !IsSpace(y[0]) && !("--" <= y) {
      TrimLeftDrops(x, y);
      var tail := Trailing(y);
      assert TrimSpace(line) == TrimRight(y) <= y;
      assert TrimRight(y) == "" ==> y == tail;
    }
  }

  lemma NoDashes(t: string, y: string)
    requires t != "" && !("--" <= t) && AllSpace(y)
    ensures !("--" <= t + y)
  {
    if |t| == 1 {
      assert y == "" || (t + y)[1] == y[0];
    } else {
      assert (t + y)[..2] == t[..2];
    }
  }

  // ---------------------------------------------------------------- function headers

  /** `unicode.ToUpper`, as far as searching for ASCII text can tell: two letters beyond ASCII become ASCII. */
  function Upper(c: char): char {
    if 'a' <= c <= 'z' then (c as int - 'a' as int + 'A' as int) as char
    else if c == '\U{0131}' then 'I'
    else if c == '\U{017F}' then 'S'
    else c
  }

  function ToUpper(s: string): string {
    seq(|s|, i requires 0 <= i < |s| => Upper(s[i]))
  }

  /** A word of capitals and blanks. */
  predicate IsCapital(word: string) {
    forall i :: 0 <= i < |word| ==> 'A' <= word[i] <= 'Z' || word[i] == ' '
  }

  lemma UpperTest(s: string, word: string)
    requires IsCapital(word)
    ensures ToUpper(s) == word <==> SameLetters(s, word)
  {
    if ToUpper(s) == word {
      forall i | 0 <= i < |s|
        ensures IsLetterOf(s[i], word[i])
      {
        assert ToUpper(s)[i] == Upper(s[i]);
      }
    }
    if SameLetters(s, word) {
      forall i | 0 <= i < |s|
        ensures ToUpper(s)[i] == word[i]
      {
        assert IsLetterOf(s[i], word[i]);
      }
    }
  }

  lemma UpperOfPart(a: string, w: string, b: string)
    ensures ToUpper(a + w + b) == ToUpper(a) + ToUpper(w) + ToUpper(b)
  {
  }

  lemma UpperFinds(line: string, word: string) returns (a: string, w: string, b: string)
    requires IsCapital(word) && Contains(ToUpper(TrimSpace(line)), word)
    ensures line == a + w + b && SameLetters(w, word)
  {
    hide Contains, TrimSpace, SameLetters;
    var t := TrimSpace(line);
    var before, after := ContainsFinds(ToUpper(t), word);
    var n := |before|;
    w := t[n..n + |word|];
    assert ToUpper(w) == ToUpper(t)[n..n + |word|] == word;
    UpperTest(w, word);
    var x, y := TrimTakesSpaces(line);
    a, b := x + t[..n], t[n + |word|..] + y;
    assert t == t[..n] + w + t[n + |word|..];
    assert x + (t[..n] + w + t[n + |word|..]) + y == a + w + b;
  }

  lemma WordIsFound(a: string, w: string, b: string, word: string)
    requires IsCapital(word) && word != "" && word[0] != ' ' && word[|word| - 1] != ' ' && SameLetters(w, word)
    ensures Contains(ToUpper(TrimSpace(a + w + b)), word)
  {
    hide Contains, TrimSpace, ToUpper;
    assert IsLetterOf(w[0], word[0]) && IsLetterOf(w[|w| - 1], word[|w| - 1]);
    var a', b' := TrimKeepsPart(a, w, b);
    UpperTest(w, word);
    UpperOfPart(a', w, b');
    ContainsPart(ToUpper(a'), word, ToUpper(b'));
  }

  lemma WordTest(line: string, word: string)
    requires IsCapital(word) && word != "" && word[0] != ' ' && word[|word| - 1] != ' '
    ensures Contains(ToUpper(TrimSpace(line)), word) <==> exists a, w, b :: line == a + w + b && SameLetters(w, word)
  {
    hide Contains, TrimSpace, ToUpper, SameLetters;
    if Contains(ToUpper(TrimSpace(line)), word) {
      var a, w, b := UpperFinds(line, word);
    }
    if a, w, b :| line == a + w + b && SameLetters(w, word) {
      WordIsFound(a, w, b, word);
    }
  }

  lemma HeaderTest(line: string)
    ensures var upper := ToUpper(TrimSpace(line));
            Contains(upper, "CREATE OR REPLACE FUNCTION") || Contains(upper, "CREATE FUNCTION") <==> NamesFunction(line)
  {
    hide SameLetters, ToUpper, Contains;
    WordTest(line, "CREATE OR REPLACE FUNCTION");
    WordTest(line, "CREATE FUNCTION");
  }
}
