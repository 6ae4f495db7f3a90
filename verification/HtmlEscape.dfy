/** `escapeHTML`: four passes over the text that amount to one, and can be undone. */
module HtmlEscape {

  /** `strings.ReplaceAll` for a one-character pattern. */
  function ReplaceAll(s: string, c: char, r: string): string {
    if s == "" then "" else (if s[0] == c then r else [s[0]]) + ReplaceAll(s[1..], c, r)
  }

  /** The ampersand goes first, so that the entities of the later passes stay intact. */
  function EscapeHtml(s: string): string {
    ReplaceAll(ReplaceAll(ReplaceAll(ReplaceAll(s, '&', "&amp;"), '<', "&lt;"), '>', "&gt;"), '"', "&quot;")
  }

  function Entity(c: char): string {
    match c
    case '&' => "&amp;"
    case '<' => "&lt;"
    case '>' => "&gt;"
    case '"' => "&quot;"
    case _ => [c]
  }

  /** Every character replaced once, independently of the others. */
  function Substitute(s: string): string {
    if s == "" then "" else Entity(s[0]) + Substitute(s[1..])
  }

  lemma {:induction false} ReplaceAppend(s: string, t: string, c: char, r: string)
    ensures ReplaceAll(s + t, c, r) == ReplaceAll(s, c, r) + ReplaceAll(t, c, r)
  {
    if s == "" {
      assert s + t == t;
    } else {
      assert (s + t)[1..] == s[1..] + t;
      ReplaceAppend(s[1..], t, c, r);
    }
  }

  lemma EscapeAppend(s: string, t: string)
    ensures EscapeHtml(s + t) == EscapeHtml(s) + EscapeHtml(t)
  {
    var s1, t1 := ReplaceAll(s, '&', "&amp;"), ReplaceAll(t, '&', "&amp;");
    var s2, t2 := ReplaceAll(s1, '<', "&lt;"), ReplaceAll(t1, '<', "&lt;");
    var s3, t3 := ReplaceAll(s2, '>', "&gt;"), ReplaceAll(t2, '>', "&gt;");
    ReplaceAppend(s, t, '&', "&amp;");
    ReplaceAppend(s1, t1, '<', "&lt;");
    ReplaceAppend(s2, t2, '>', "&gt;");
    ReplaceAppend(s3, t3, '"', "&quot;");
  }

  /** A pass leaves text without its character alone. */
  lemma {:induction false} ReplaceAbsent(s: string, c: char, r: string)
    requires c !in s
    ensures ReplaceAll(s, c, r) == s
  {
    if s == "" {
    } else {
      ReplaceAbsent(s[1..], c, r);
    }
  }

  lemma EscapeOne(c: char)
    ensures EscapeHtml([c]) == Entity(c)
  {
    hide ReplaceAll;
    var passes := [('&', "&amp;"), ('<', "&lt;"), ('>', "&gt;"), ('"', "&quot;")];
    forall i | 0 <= i < 4
      ensures ReplaceAll([c], passes[i].0, passes[i].1) == if c == passes[i].0 then passes[i].1 else [c]
    {
      ReplaceOne(c, passes[i].0, passes[i].1);
    }
    assert passes[0] == ('&', "&amp;") && passes[1] == ('<', "&lt;") && passes[2] == ('>', "&gt;") && passes[3] == ('"', "&quot;");
    ReplaceAbsent("&amp;", '<', "&lt;");
    ReplaceAbsent("&amp;", '>', "&gt;");
    ReplaceAbsent("&amp;", '"', "&quot;");
    ReplaceAbsent("&lt;", '>', "&gt;");
    ReplaceAbsent("&lt;", '"', "&quot;");
    ReplaceAbsent("&gt;", '"', "&quot;");
  }

  lemma ReplaceOne(c: char, d: char, r: string)
    ensures ReplaceAll([c], d, r) == if c == d then r else [c]
  {
    assert [c][1..] == "";
  }

  /** The four sequential passes are one simultaneous substitution. */
  lemma {:induction false} EscapeIsSubstitution(s: string)
    ensures EscapeHtml(s) == Substitute(s)
  {
    hide EscapeHtml, Entity;
    if s == "" {
      EscapeNothing();
    } else {
      assert s == [s[0]] + s[1..];
      EscapeAppend([s[0]], s[1..]);
      EscapeOne(s[0]);
      EscapeIsSubstitution(s[1..]);
    }
  }

  /** Wherever they stand, the four characters become their entities, and no other character changes. */
  lemma EscapeInPlace(before: string, c: char, after: string)
    ensures EscapeHtml(before + [c] + after) ==
            EscapeHtml(before)
            + (if c == '&' then "&amp;" else if c == '<' then "&lt;" else if c == '>' then "&gt;"
               else if c == '"' then "&quot;" else [c])
            + EscapeHtml(after)
  {
    hide EscapeHtml;
    EscapeAppend(before + [c], after);
    EscapeAppend(before, [c]);
    EscapeOne(c);
  }

  lemma EscapeNothing()
    ensures EscapeHtml("") == ""
  {
  }

  lemma {:induction false} SubstitutionIsSafe(s: string)
    ensures '<' !in Substitute(s) && '>' !in Substitute(s) && '"' !in Substitute(s)
  {
    if s == "" {
    } else {
      SubstitutionIsSafe(s[1..]);
    }
  }

  /** Escaped text holds no markup character. */
  lemma EscapedTextIsSafe(s: string)
    ensures '<' !in EscapeHtml(s) && '>' !in EscapeHtml(s) && '"' !in EscapeHtml(s)
  {
    EscapeIsSubstitution(s);
    SubstitutionIsSafe(s);
  }

  /** What a reader of the markup shows: the four entities turn back into their characters. */
  function Decode(s: string): string
    decreases |s|
  {
    if s == "" then ""
    else if "&amp;" <= s then "&" + Decode(s[5..])
    else if "&lt;" <= s then "<" + Decode(s[4..])
    else if "&gt;" <= s then ">" + Decode(s[4..])
    else if "&quot;" <= s then "\"" + Decode(s[6..])
    else [s[0]] + Decode(s[1..])
  }

  lemma DecodeEntity(c: char, rest: string)
    ensures Decode(Entity(c) + rest) == [c] + Decode(rest)
  {
    var s := Entity(c) + rest;
    assert s[|Entity(c)|..] == rest;
    if |Entity(c)| > 1 {
      assert s[..|Entity(c)|] == Entity(c);
    }
    if c == '<' || c == '>' || c == '"' {
      assert s[1] != 'a';
    }
    if c == '>' || c == '"' {
      assert s[1] != 'l';
    }
  }

  /** Decoding gives back exactly the text that was escaped, whatever it was. */
  lemma {:induction false} DecodeEscape(s: string)
    ensures Decode(EscapeHtml(s)) == s
  {
    hide EscapeHtml, Decode, Entity;
    EscapeIsSubstitution(s);
    if s == "" {
      DecodeNothing();
    } else {
      DecodeEntity(s[0], Substitute(s[1..]));
      EscapeIsSubstitution(s[1..]);
      DecodeEscape(s[1..]);
    }
  }

  lemma DecodeNothing()
    ensures Decode("") == ""
  {
  }

  /** So no two texts are shown alike. */
  lemma EscapeIsInjective(s: string, t: string)
    requires EscapeHtml(s) == EscapeHtml(t)
    ensures s == t
  {
    DecodeEscape(s);
    DecodeEscape(t);
  }
}
