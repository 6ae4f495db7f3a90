/** The PAM package's own tokenizer and matcher, and when they agree with the executor's. */
module PamMatcher {
  import opened Text
  import opened Wrappers
  import opened Executor

  function PamStep(l: Lexer, c: char): Lexer {
    if IsBlank(c) then Flush(l) else l.(current := l.current + [c])
  }

  function PamScan(l: Lexer, s: string): Lexer
    decreases |s|
  {
    if s == "" then l else PamScan(PamStep(l, s[0]), s[1..])
  }

  function PamTokenize(s: string): seq<string> {
    Flush(PamScan(START, s)).tokens
  }

  method TokenizeCommand(s: string) returns (tokens: seq<string>)
    ensures tokens == PamTokenize(s)
  {
    tokens := [];
    var current: string := "";
    for i := 0 to |s|
      invariant PamScan(START, s) == PamScan(Lexer(tokens, current, NUL), s[i..])
    {
      var ch := s[i];
      if ch == ' ' || ch == '\t' || ch == '\n' || ch == '\r' {
        if |current| > 0 {
          tokens, current := tokens + [current], "";
        }
      } else {
        current := current + [ch];
      }
      assert s[i..][1..] == s[i + 1..];
    }
    if |current| > 0 {
      tokens := tokens + [current];
    }
  }

  predicate PamPermits(pattern: string, command: string) {
    || pattern == "*"
    || pattern == command
    || (TokensMatch(PamTokenize(pattern), PamTokenize(command)) && Executor.Harmless(PamTokenize(command)))
  }

  method MatchCommand(pattern: string, command: string) returns (matched: bool)
    ensures matched <==> PamPermits(pattern, command)
  {
    if pattern == "*" {
      return true;
    }
    if pattern == command {
      return true;
    }
    var patternTokens := TokenizeCommand(pattern);
    var commandTokens := TokenizeCommand(command);
    matched := MatchTokens(patternTokens, commandTokens);
  }

  predicate PamAllowed(allowlist: seq<string>, command: string) {
    exists i :: 0 <= i < |allowlist| && PamPermits(allowlist[i], command)
  }

  method IsCommandAllowed(allowlist: seq<string>, command: string) returns (allowed: bool)
    ensures allowed <==> PamAllowed(allowlist, command)
  {
    if |allowlist| == 0 {
      return false;
    }
    for i := 0 to |allowlist|
      invariant forall k :: 0 <= k < i ==> !PamPermits(allowlist[k], command)
    {
      var matched := MatchCommand(allowlist[i], command);
      if matched {
        return true;
      }
    }
    return false;
  }

  // ---------------------------------------------------------------- agreement with the executor

  /** No character that only one of the two tokenizers treats specially. */
  predicate Simple(s: string) {
    forall i :: 0 <= i < |s| ==> !IsQuote(s[i]) && s[i] != NUL
  }

  lemma {:induction false} ScansAgree(l: Lexer, s: string)
    requires l.quote == NUL && Simple(s)
    ensures Scan(l, s) == PamScan(l, s) && Scan(l, s).quote == NUL
    decreases |s|
  {
    if s == "" {
    } else {
      ScansAgree(Step(l, s[0]), s[1..]);
    }
  }

  /** How many special characters the tokens hold, the unfinished one included. */
  function Mass(l: Lexer): nat {
    SpecialsIn(l.tokens) + Specials(l.current)
  }

  function Specials(s: string): nat {
    if s == "" then 0
    else Specials(s[..|s| - 1]) + if IsQuote(s[|s| - 1]) || s[|s| - 1] == NUL then 1 else 0
  }

  function SpecialsIn(tokens: seq<string>): nat {
    if tokens == [] then 0 else SpecialsIn(tokens[..|tokens| - 1]) + Specials(tokens[|tokens| - 1])
  }

  lemma {:induction false} SpecialsFromFront(s: string)
    requires s != ""
    ensures Specials(s) == Specials([s[0]]) + Specials(s[1..])
    decreases |s|
  {
    if |s| == 1 {
      assert s == [s[0]];
    } else {
      SpecialsFromFront(s[..|s| - 1]);
      assert s[..|s| - 1][1..] == s[1..][..|s| - 2];
    }
  }

  lemma FlushKeepsMass(l: Lexer)
    ensures Mass(Flush(l)) == Mass(l) && SpecialsIn(Flush(l).tokens) == Mass(l)
  {
    assert (l.tokens + [l.current])[..|l.tokens|] == l.tokens;
  }

  lemma SpecialsAppend(s: string, c: char)
    ensures Specials(s + [c]) == Specials(s) + Specials([c])
    ensures Specials([c]) == if IsQuote(c) || c == NUL then 1 else 0
  {
    assert (s + [c])[..|s|] == s && [c][..0] == "";
  }

  /** A character adds itself to the mass, or is dropped. */
  lemma StepsAddMass(l: Lexer, c: char)
    ensures Mass(PamStep(l, c)) == Mass(l) + Specials([c])
    ensures Mass(Step(l, c)) <= Mass(l) + Specials([c])
    ensures l.quote == NUL && Specials([c]) > 0 ==> Mass(Step(l, c)) == Mass(l)
  {
    hide Specials, SpecialsIn, Flush;
    FlushKeepsMass(l);
    SpecialsAppend(l.current, c);
  }

  /** The PAM tokenizer keeps every special character, the executor's drops at least the first. */
  lemma {:induction false} ScansAddMass(l: Lexer, s: string)
    ensures Mass(PamScan(l, s)) == Mass(l) + Specials(s)
    ensures Mass(Scan(l, s)) <= Mass(l) + Specials(s)
    ensures l.quote == NUL && !Simple(s) ==> Mass(Scan(l, s)) < Mass(l) + Specials(s)
    decreases |s|
  {
    if s == "" {
    } else {
      SpecialsFromFront(s);
      StepsAddMass(l, s[0]);
      ScansAddMass(PamStep(l, s[0]), s[1..]);
      ScansAddMass(Step(l, s[0]), s[1..]);
    }
  }

  /** The two tokenizers give the same tokens exactly on text without quotes and NUL. */
  lemma TokenizersAgree(s: string)
    ensures Tokenize(s) == Ok(PamTokenize(s)) <==> Simple(s)
  {
    if Simple(s) {
      ScansAgree(START, s);
    } else {
      ScansAddMass(START, s);
      FlushKeepsMass(Scan(START, s));
      FlushKeepsMass(PamScan(START, s));
    }
  }

  /** An allowlist entry without blanks at its ends and without special characters. */
  predicate Trimmed(entry: string) {
    Simple(entry) && TrimSpace(entry) == entry
  }

  lemma EntriesAgree(entry: string, command: string)
    requires command != "" && Simple(command) && Trimmed(entry)
    ensures EntryPermits(entry, command) <==> PamPermits(entry, command)
  {
    TokenizersAgree(entry);
    TokenizersAgree(command);
  }

  /** Submission through PAM and execution decide alike, for every allowlist of trimmed simple entries. */
  lemma MatchersAgree(allowlist: seq<string>, command: string)
    requires command != "" && Simple(command)
    requires forall i :: 0 <= i < |allowlist| ==> Trimmed(allowlist[i])
    ensures PamAllowed(allowlist, command) <==> Allowed(allowlist, command)
  {
    forall i | 0 <= i < |allowlist|
      ensures EntryPermits(allowlist[i], command) <==> PamPermits(allowlist[i], command)
    {
      EntriesAgree(allowlist[i], command);
    }
  }

  predicate OnlyExecutorAllows(entry: string, command: string) {
    Allowed([entry], command) && !PamAllowed([entry], command)
  }

  predicate OnlyPamAllows(entry: string, command: string) {
    PamAllowed([entry], command) && !Allowed([entry], command)
  }

  /** Each hypothesis is needed: quotes and NUL in the command, or in the entry, an untrimmed entry, and the empty
      command; and either matcher may be the stricter one. */
  lemma MatchersDisagreeOtherwise()
    ensures OnlyExecutorAllows("a", "\"a\"") && OnlyExecutorAllows("\"a\"", "a")
    ensures OnlyExecutorAllows("a", ['a', NUL]) && OnlyExecutorAllows(['a', NUL], "a")
    ensures OnlyExecutorAllows(" *", ";") && OnlyPamAllows("", "") && OnlyPamAllows("a' *", "a' b")
  {
    hide OnlyExecutorAllows, OnlyPamAllows, HasMetacharacter;
    NoneDangerous("a");
    SpecialCharactersDivide("a", '"');
    assert ['"'] + "a" + ['"'] == "\"a\"" && "a" + [NUL] == ['a', NUL];
    PaddedStar();
    EmptyCommand();
    UnclosedQuote();
  }

  /** Quotes around a word, or a NUL after it, change nothing for the executor and everything for PAM. */
  lemma SpecialCharactersDivide(word: string, mark: char)
    requires word != "" && Trimmed(word) && BlankFree(word) && !HasMetacharacter(word) && IsQuote(mark)
    ensures OnlyExecutorAllows(word, [mark] + word + [mark]) && OnlyExecutorAllows([mark] + word + [mark], word)
    ensures OnlyExecutorAllows(word, word + [NUL]) && OnlyExecutorAllows(word + [NUL], word)
  {
    hide Scan, Tokenize, PamScan, PamTokenize, HasMetacharacter, Simple, TrimSpace;
    var quoted, ended := [mark] + word + [mark], word + [NUL];
    assert word != "*" by {
      if word == "*" {
        StarIsDangerous(word, 0);
      }
    }
    assert |word| < |quoted| && |word| < |ended|;
    TokenizersAgree(word);
    BlankFreeIsOneToken(word);
    BlankFreeIsOneToken(quoted);
    BlankFreeIsOneToken(ended);
    QuotedWord(word, mark);
    EndedWord(word);
    TrimmedEnds(quoted);
    TrimmedEnds(ended);
    OneTokenDivides(word, quoted);
    OneTokenDivides(quoted, word);
    OneTokenDivides(word, ended);
    OneTokenDivides(ended, word);
  }

  lemma OneTokenDivides(entry: string, command: string)
    requires TrimSpace(entry) == entry != "" && entry != "*" && entry != command
    requires Tokenize(entry) == Tokenize(command) && Tokenize(entry).Ok? && |Tokenize(entry).value| == 1
    requires Tokenize(entry).value[0] != "*" && !HasMetacharacter(Tokenize(entry).value[0])
    requires PamTokenize(entry) == [entry] && PamTokenize(command) == [command]
    ensures OnlyExecutorAllows(entry, command)
  {
    hide Tokenize, PamTokenize, HasMetacharacter, TrimSpace;
    assert EntryPermits([entry][0], command);
    assert PamPermits([entry][0], command) ==> false;
  }

  lemma QuotedWord(word: string, mark: char)
    requires word != "" && Simple(word) && IsQuote(mark)
    ensures Tokenize([mark] + word + [mark]) == Ok([word])
  {
    var items := [Quoted(mark, word)];
    TokenizeRecoversWords(items);
    assert items[1..] == [] && "" + word == word;
    assert Written(items) == [mark] + word + [mark];
    assert Words(items, "") == [word];
  }

  lemma EndedWord(word: string)
    requires Simple(word)
    ensures Tokenize(word + [NUL]) == Tokenize(word)
  {
    ScansAgree(START, word);
    UnquotedNulVanishes(word, "");
    assert word + [NUL] + "" == word + [NUL] && word + "" == word;
  }

  lemma TrimmedEnds(s: string)
    requires s != "" && !IsSpace(s[0]) && !IsSpace(s[|s| - 1])
    ensures TrimSpace(s) == s
  {
  }

  predicate BlankFree(s: string) {
    forall i :: 0 <= i < |s| ==> !IsBlank(s[i])
  }

  lemma {:induction false} ScanBlankFree(l: Lexer, s: string)
    requires BlankFree(s)
    ensures PamScan(l, s) == l.(current := l.current + s)
    decreases |s|
  {
    if s == "" {
      assert l.current + s == l.current;
    } else {
      ScanBlankFree(PamStep(l, s[0]), s[1..]);
      assert l.current + [s[0]] + s[1..] == l.current + s;
    }
  }

  /** Each of the four blanks separates words, and nothing else does. */
  lemma PamBlankSeparates(s: string, blank: char, t: string)
    requires blank in " \t\n\r"
    ensures PamTokenize(s + [blank] + t) == PamTokenize(s) + PamTokenize(t)
  {
    PamScanAppend(START, s + [blank], t);
    PamScanAppend(START, s, [blank]);
    var l := PamScan(START, s);
    assert PamScan(l, [blank]) == Flush(l) by {
      PlainChar(blank);
      assert IsBlank(blank) && [blank][1..] == "";
    }
    assert Flush(l).current == "" && Flush(l).quote == NUL by {
      PamScanKeepsQuote(START, s);
    }
    PamScanFrom(Flush(l), t);
  }

  lemma {:induction false} PamScanKeepsQuote(l: Lexer, s: string)
    ensures PamScan(l, s).quote == l.quote
    decreases |s|
  {
    if s == "" {
    } else {
      PamScanKeepsQuote(PamStep(l, s[0]), s[1..]);
    }
  }

  lemma {:induction false} PamScanFrom(l: Lexer, s: string)
    ensures var r := PamScan(Lexer([], l.current, l.quote), s);
            PamScan(l, s) == Lexer(l.tokens + r.tokens, r.current, r.quote)
    decreases |s|
  {
    if s == "" {
      assert l.tokens + [] == l.tokens;
    } else {
      var start := Lexer([], l.current, l.quote);
      var next, first := PamStep(l, s[0]), PamStep(start, s[0]);
      PamScanFrom(next, s[1..]);
      PamScanFrom(first, s[1..]);
      assert next.tokens == l.tokens + first.tokens;
      var rest := PamScan(Lexer([], next.current, next.quote), s[1..]).tokens;
      assert l.tokens + first.tokens + rest == l.tokens + (first.tokens + rest);
    }
  }

  /** The PAM tokenizer keeps quotes as ordinary characters. */
  lemma BlankFreeIsOneToken(s: string)
    requires s != "" && BlankFree(s)
    ensures PamTokenize(s) == [s]
  {
    ScanBlankFree(START, s);
    assert START.current + s == s;
  }

  lemma PaddedStar()
    ensures OnlyExecutorAllows(" *", ";")
  {
    assert TrimLeft(" *") == "*" && TrimSpace(" *") == "*";
    assert EntryPermits([" *"][0], ";");
    BlankFreeIsOneToken(";");
    assert HasMetacharacter(";") by {
      assert ';' in DANGEROUS;
    }
  }

  lemma StarIsDangerous(s: string, k: nat)
    requires k < |s| && s[k] == '*'
    ensures HasMetacharacter(s)
  {
    assert s[k] in s && '*' in DANGEROUS;
  }

  lemma {:induction false} PamScanAppend(l: Lexer, s: string, t: string)
    ensures PamScan(l, s + t) == PamScan(PamScan(l, s), t)
    decreases |s|
  {
    if s == "" {
      assert s + t == t;
    } else {
      assert (s + t)[1..] == s[1..] + t;
      PamScanAppend(PamStep(l, s[0]), s[1..], t);
    }
  }

  lemma TwoWords(a: string, b: string)
    requires a != "" && b != "" && BlankFree(a) && BlankFree(b)
    ensures PamTokenize(a + " " + b) == [a, b]
  {
    var first, gap := Lexer([], a, NUL), Lexer([a], "", NUL);
    assert PamScan(START, a) == first by {
      ScanBlankFree(START, a);
      assert START.current + a == a;
    }
    assert PamScan(first, " ") == gap by {
      assert [] + [a] == [a] && " "[1..] == "";
    }
    assert PamScan(gap, b) == gap.(current := b) by {
      ScanBlankFree(gap, b);
      assert "" + b == b;
    }
    PamScanAppend(START, a, " ");
    PamScanAppend(START, a + " ", b);
  }

  lemma EmptyCommand()
    ensures OnlyPamAllows("", "")
  {
    assert PamPermits([""][0], "");
  }

  /** PAM takes a stray quote for a letter, where the executor gives up. */
  lemma UnclosedQuote()
    ensures OnlyPamAllows("a' *", "a' b")
  {
    hide HasMetacharacter, Scan, Tokenize, PamScan, PamTokenize, TrimSpace;
    var entry, command := "a' *", "a' b";
    TwoWords("a'", "*");
    TwoWords("a'", "b");
    assert "a'" + " " + "*" == entry && "a'" + " " + "b" == command;
    assert ["a'", "*"][..1] <= ["a'", "b"];
    NoneDangerous("a'");
    NoneDangerous("b");
    assert PamPermits([entry][0], command);
    assert TrimSpace(entry) == entry by {
      TrimmedEnds(entry);
    }
    CommandIsUnclosed();
    assert entry[3] != command[3] && |entry| != |"*"|;
  }

  lemma NoneDangerous(s: string)
    requires forall i :: 0 <= i < |s| ==> s[i] == '\'' || 'a' <= s[i] <= 'z'
    ensures !HasMetacharacter(s)
  {
  }

  lemma CommandIsUnclosed()
    ensures Tokenize("a' b").Err?
  {
    ScanAppend(START, "a'", " b");
    assert "a'" + " b" == "a' b";
    var l := Scan(START, "a'");
    assert l.quote == '\'';
    ScanQuoted(l, " b");
  }

  /** A star inside a word is an ordinary character, and one that no command matched by tokens may contain: a pattern
      like "a*" permits nothing but its own text. */
  lemma GluedStarIsLiteral(word: string, command: string)
    requires word != "" && BlankFree(word)
    ensures PamPermits(word + "*", command) <==> command == word + "*"
  {
    hide PamTokenize;
    var pattern := word + "*";
    BlankFreeIsOneToken(pattern);
    assert |pattern| > 1 && pattern[|word|] == '*';
    if TokensMatch(PamTokenize(pattern), PamTokenize(command)) {
      assert PamTokenize(command)[0] == pattern && pattern in PamTokenize(command);
      StarIsDangerous(pattern, |word|);
    }
  }

  /** The expectation of the matcher's tests that the code does not meet. */
  lemma PrefixesAreNotMatched()
    ensures PamPermits("a*", "ab") == PamPermits("a*", "a") == false
  {
    assert "a*" == "a" + "*";
    GluedStarIsLiteral("a", "ab");
    GluedStarIsLiteral("a", "a");
  }
}
