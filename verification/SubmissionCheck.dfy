/** PAM admits a command at submission by its own matcher, the executor decides again before it runs. For which commands
    does the first answer guarantee the second, whatever the allowlist? */
module SubmissionCheck {
  import opened Text
  import opened Wrappers
  import opened Executor
  import opened PamMatcher

  // ---------------------------------------------------------------- text as words

  /** Quotes in the word pair up. */
  predicate Balanced(word: string) {
    Tokenize(word).Ok?
  }

  /** What the executor reads in a word. */
  function Content(word: string): string {
    Scan(START, word).current
  }

  /** What the executor reads in a list of balanced words: nothing for a word of empty quotes. */
  function Contents(words: seq<string>): seq<string> {
    if words == [] then [] else Contents(words[..|words| - 1]) + Word(Content(words[|words| - 1]))
  }

  /** Within a word the executor only extends the current token. */
  lemma {:induction false} ScanWord(l: Lexer, word: string)
    requires BlankFree(word)
    ensures var inner := Scan(Lexer([], "", l.quote), word);
            Scan(l, word) == Lexer(l.tokens, l.current + inner.current, inner.quote) && inner.tokens == []
    decreases |word|
  {
    if word == "" {
      assert l.current + "" == l.current;
    } else {
      var next, inner := Step(l, word[0]), Step(Lexer([], "", l.quote), word[0]);
      ScanWord(next, word[1..]);
      ScanWord(inner, word[1..]);
      var rest := Scan(Lexer([], "", next.quote), word[1..]).current;
      assert l.current + (inner.current + rest) == l.current + inner.current + rest;
    }
  }

  lemma {:induction false} PamScanGrows(l: Lexer, s: string)
    ensures l.tokens <= Flush(PamScan(l, s)).tokens
    decreases |s|
  {
    if s == "" {
    } else {
      PamScanGrows(PamStep(l, s[0]), s[1..]);
    }
  }

  predicate AllBalanced(words: seq<string>) {
    forall w :: w in words ==> Balanced(w)
  }

  /** The executor has read the finished words, and stands in the word PAM is reading. */
  predicate InStep(pam: Lexer, l: Lexer) {
    && BlankFree(pam.current) && l.tokens == Contents(pam.tokens)
    && l.current == Scan(START, pam.current).current && l.quote == Scan(START, pam.current).quote
  }

  lemma InStepFlush(pam: Lexer, l: Lexer)
    requires InStep(pam, l) && l.quote == NUL
    ensures InStep(Flush(pam), Flush(l)) && Flush(l).tokens == Contents(Flush(pam).tokens)
  {
    ScanWord(START, pam.current);
    assert (pam.tokens + [pam.current])[..|pam.tokens|] == pam.tokens;
    if pam.current == "" {
    } else {
      assert Contents(pam.tokens + [pam.current]) == l.tokens + Word(l.current);
    }
  }

  lemma InStepStep(pam: Lexer, l: Lexer, c: char)
    requires InStep(pam, l) && !IsBlank(c)
    ensures InStep(PamStep(pam, c), Step(l, c))
  {
    hide Contents;
    ScanWord(START, pam.current);
    ScanAppend(START, pam.current, [c]);
    assert Scan(Scan(START, pam.current), [c]) == Step(Scan(START, pam.current), c);
  }

  /** Text whose words are all balanced is read word by word. */
  lemma {:induction false} ScansWordByWord(pam: Lexer, l: Lexer, s: string)
    requires InStep(pam, l) && AllBalanced(Flush(PamScan(pam, s)).tokens)
    ensures Scan(l, s).quote == NUL && Flush(Scan(l, s)).tokens == Contents(Flush(PamScan(pam, s)).tokens)
    decreases |s|
  {
    hide InStep, Contents;
    if s == "" {
      LastWordBalanced(pam, l, Flush(pam).tokens);
      InStepFlush(pam, l);
    } else if IsBlank(s[0]) {
      PamScanGrows(Flush(pam), s[1..]);
      LastWordBalanced(pam, l, Flush(PamScan(pam, s)).tokens);
      InStepFlush(pam, l);
      ScansWordByWord(Flush(pam), Flush(l), s[1..]);
    } else {
      InStepStep(pam, l, s[0]);
      ScansWordByWord(PamStep(pam, s[0]), Step(l, s[0]), s[1..]);
    }
  }

  lemma LastWordBalanced(pam: Lexer, l: Lexer, words: seq<string>)
    requires InStep(pam, l) && Flush(pam).tokens <= words && AllBalanced(words)
    ensures l.quote == NUL
  {
    hide Contents;
    if pam.current == "" {
    } else {
      assert Flush(pam).tokens[|pam.tokens|] == pam.current;
      assert pam.current == words[|pam.tokens|] && pam.current in words;
    }
  }

  lemma ReadsWordByWord(s: string)
    requires AllBalanced(PamTokenize(s))
    ensures Tokenize(s) == Ok(Contents(PamTokenize(s)))
  {
    assert InStep(START, START);
    ScansWordByWord(START, START, s);
  }

  // ---------------------------------------------------------------- the words of a text

  predicate AreWords(words: seq<string>) {
    forall w :: w in words ==> w != "" && BlankFree(w)
  }

  lemma {:induction false} PamScanFindsWords(l: Lexer, s: string)
    requires AreWords(l.tokens) && BlankFree(l.current)
    ensures AreWords(Flush(PamScan(l, s)).tokens)
    decreases |s|
  {
    if s == "" {
    } else {
      PamScanFindsWords(PamStep(l, s[0]), s[1..]);
    }
  }

  lemma PamTokensAreWords(s: string)
    ensures AreWords(PamTokenize(s))
  {
    PamScanFindsWords(START, s);
  }

  /** Each word followed by a blank. */
  function Spaced(words: seq<string>): string {
    if words == [] then "" else Spaced(words[..|words| - 1]) + words[|words| - 1] + " "
  }

  lemma {:induction false} PamScanSpaced(words: seq<string>)
    requires AreWords(words)
    ensures PamScan(START, Spaced(words)) == Lexer(words, "", NUL)
    decreases |words|
  {
    if words == [] {
    } else {
      var past, last := words[..|words| - 1], words[|words| - 1];
      PamScanSpaced(past);
      PamScanAppend(START, Spaced(past) + last, " ");
      PamScanAppend(START, Spaced(past), last);
      ScanBlankFree(Lexer(past, "", NUL), last);
      assert "" + last == last && past + [last] == words;
      assert PamScan(Lexer(past, last, NUL), " ") == Lexer(words, "", NUL) by {
        assert " "[1..] == "";
      }
    }
  }

  /** The entry that asks for these words and lets anything follow. */
  function PrefixEntry(words: seq<string>): string {
    Spaced(words) + "*"
  }

  lemma PamReadsPrefixEntry(words: seq<string>)
    requires AreWords(words)
    ensures PamTokenize(PrefixEntry(words)) == words + ["*"]
  {
    PamScanSpaced(words);
    PamScanAppend(START, Spaced(words), "*");
    ScanBlankFree(Lexer(words, "", NUL), "*");
    assert "" + "*" == "*";
  }

  lemma {:induction false} SpacedStart(words: seq<string>)
    requires words != [] && words[0] != ""
    ensures Spaced(words) != "" && Spaced(words)[0] == words[0][0]
    decreases |words|
  {
    if |words| == 1 {
      assert words[..0] == [];
      assert Spaced(words) == "" + words[0] + " ";
    } else {
      SpacedStart(words[..|words| - 1]);
    }
  }

  lemma PrefixEntryIsTrimmed(words: seq<string>)
    requires words != [] && words[0] != "" && !IsSpace(words[0][0])
    ensures TrimSpace(PrefixEntry(words)) == PrefixEntry(words) && PrefixEntry(words) != "*" && PrefixEntry(words) != ""
  {
    SpacedStart(words);
    TrimmedEnds(PrefixEntry(words));
  }

  // ---------------------------------------------------------------- contents

  lemma {:induction false} ContentsAppend(a: seq<string>, b: seq<string>)
    ensures Contents(a + b) == Contents(a) + Contents(b)
    decreases |b|
  {
    if b == [] {
      assert a + b == a;
    } else {
      assert (a + b)[..|a + b| - 1] == a + b[..|b| - 1];
      ContentsAppend(a, b[..|b| - 1]);
    }
  }

  lemma ContentsOfStar()
    ensures Balanced("*") && Contents(["*"]) == ["*"]
  {
    SimpleWordIsItself("*");
  }

  lemma SimpleWordIsItself(word: string)
    requires word != "" && BlankFree(word) && Simple(word)
    ensures Balanced(word) && Contents([word]) == [word]
  {
    hide Tokenize, PamTokenize, Contents, Simple, BlankFree;
    TokenizersAgree(word);
    BlankFreeIsOneToken(word);
    ReadsWordByWord(word);
  }

  lemma {:induction false} ScanKeepsChars(l: Lexer, word: string, c: char)
    requires BlankFree(word) && c in Scan(l, word).current
    ensures c in l.current || c in word
    decreases |word|
  {
    if word == "" {
    } else {
      ScanKeepsChars(Step(l, word[0]), word[1..], c);
    }
  }

  lemma {:induction false} ContentsAreHarmless(words: seq<string>)
    requires AreWords(words) && Executor.Harmless(words)
    ensures Executor.Harmless(Contents(words))
    decreases |words|
  {
    if words == [] {
    } else {
      var past, last := words[..|words| - 1], words[|words| - 1];
      assert forall w :: w in past ==> w in words;
      ContentsAreHarmless(past);
      assert last in words && !HasMetacharacter(last);
      if HasMetacharacter(Content(last)) {
        var c :| c in Content(last) && c in DANGEROUS;
        ScanKeepsChars(START, last, c);
        assert false;
      }
    }
  }

  // ---------------------------------------------------------------- when submission guarantees execution

  /** The executor can take the command apart as PAM does: it is balanced word by word, and not all empty quotes. */
  predicate Readable(command: string) {
    AllBalanced(PamTokenize(command)) && Tokenize(command) != Ok([])
  }

  /** PAM cannot match the command by tokens: it has none, or its first starts with a space that PAM takes for a letter
      while trimming removes it from every entry, or it holds a metacharacter. */
  predicate NeverMatchedByTokens(command: string) {
    var words := PamTokenize(command);
    words == [] || (words[0] != "" && IsSpace(words[0][0])) || !Executor.Harmless(words)
  }

  /** Whatever PAM permits by a trimmed entry, the executor permits by it too. */
  ghost predicate Guaranteed(command: string) {
    forall entry: string :: TrimSpace(entry) == entry && PamPermits(entry, command) ==> EntryPermits(entry, command)
  }

  lemma ReadableIsPermitted(entry: string, command: string)
    requires command != "" && Readable(command) && TrimSpace(entry) == entry && PamPermits(entry, command)
    ensures EntryPermits(entry, command)
  {
    hide Tokenize, PamTokenize, TrimSpace, HasMetacharacter, Contents;
    var pattern, words := PamTokenize(entry), PamTokenize(command);
    if entry != "*" && entry != command {
      assert entry != "" by {
        if entry == "" {
          EmptyHasNoWords();
        }
      }
      PamTokensAreWords(command);
      ReadsWordByWord(command);
      ContentsAreHarmless(words);
      var n := |pattern| - 1;
      if pattern[n] == "*" {
        assert pattern == pattern[..n] + ["*"] && words == pattern[..n] + words[n..];
        ContentsOfStar();
        assert forall w :: w in pattern ==> w in words || w == "*";
        ReadsWordByWord(entry);
        ContentsAppend(pattern[..n], ["*"]);
        ContentsAppend(pattern[..n], words[n..]);
        StarMatches(Contents(pattern[..n]), Contents(words[n..]));
      } else {
        ReadsWordByWord(entry);
        SameMatches(Contents(words));
      }
    }
  }

  lemma EmptyHasNoWords()
    ensures PamTokenize("") == []
  {
  }

  lemma StarMatches(prefix: seq<string>, rest: seq<string>)
    requires prefix + rest != []
    ensures TokensMatch(prefix + ["*"], prefix + rest)
  {
    assert (prefix + ["*"])[..|prefix|] == prefix;
  }

  lemma SameMatches(tokens: seq<string>)
    requires tokens != [] && Executor.Harmless(tokens)
    ensures TokensMatch(tokens, tokens)
  {
    if tokens[|tokens| - 1] == "*" {
      StarIsDangerous("*", 0);
    }
  }

  /** The first word begins with the first character, if that is no blank. */
  lemma {:induction false} PamScanStarted(l: Lexer, s: string)
    requires l.tokens == [] && l.current != ""
    ensures var r := PamScan(l, s);
            if r.tokens == [] then r.current != "" && r.current[0] == l.current[0]
            else r.tokens[0] != "" && r.tokens[0][0] == l.current[0]
    decreases |s|
  {
    if s == "" {
    } else if IsBlank(s[0]) {
      PamScanKeepsFirst(Flush(l), s[1..]);
    } else {
      PamScanStarted(PamStep(l, s[0]), s[1..]);
    }
  }

  lemma {:induction false} PamScanKeepsFirst(l: Lexer, s: string)
    requires l.tokens != []
    ensures var r := PamScan(l, s); r.tokens != [] && r.tokens[0] == l.tokens[0]
    decreases |s|
  {
    if s == "" {
    } else {
      PamScanKeepsFirst(PamStep(l, s[0]), s[1..]);
    }
  }

  lemma FirstWordStarts(s: string)
    requires s != "" && !IsBlank(s[0])
    ensures PamTokenize(s) != [] && PamTokenize(s)[0] != "" && PamTokenize(s)[0][0] == s[0]
  {
    PamScanStarted(Lexer([], [s[0]], NUL), s[1..]);
    assert "" + [s[0]] == [s[0]];
  }

  /** Of all trimmed entries only "*" itself has the star as its one word. */
  lemma LoneStar(entry: string)
    requires entry != "" && TrimSpace(entry) == entry && PamTokenize(entry) == ["*"]
    ensures entry == "*"
  {
    FirstWordStarts(entry);
    if |entry| > 1 {
      var rest, last := entry[1..], entry[|entry| - 1];
      var l := Lexer([], "*", NUL);
      assert PamScan(START, entry) == PamScan(l, rest) by {
        assert "" + ['*'] == "*";
      }
      assert rest == rest[..|rest| - 1] + [last];
      PamScanAppend(l, rest[..|rest| - 1], [last]);
      PamScanStarted(l, rest[..|rest| - 1]);
      assert false;
    }
  }

  lemma UnmatchedIsPermitted(entry: string, command: string)
    requires command != "" && NeverMatchedByTokens(command) && TrimSpace(entry) == entry && PamPermits(entry, command)
    ensures EntryPermits(entry, command)
  {
    hide Tokenize, PamTokenize, TrimSpace, HasMetacharacter;
    if entry != "*" && entry != command {
      var pattern, words := PamTokenize(entry), PamTokenize(command);
      if entry == "" {
        EmptyHasNoWords();
      } else {
        assert !IsSpace(entry[0]);
        FirstWordStarts(entry);
        if pattern == ["*"] {
          LoneStar(entry);
        } else {
          assert false;
        }
      }
    }
  }

  lemma FirstUnbalanced(words: seq<string>) returns (k: nat)
    requires !AllBalanced(words)
    ensures k < |words| && AllBalanced(words[..k]) && !Balanced(words[k])
    decreases |words|
  {
    hide Balanced;
    var past := words[..|words| - 1];
    if AllBalanced(past) {
      k := |past|;
    } else {
      k := FirstUnbalanced(past);
      assert past[..k] == words[..k];
    }
  }

  lemma {:induction false} QuotesAreQuotes(l: Lexer, s: string)
    requires l.quote == NUL || IsQuote(l.quote)
    ensures Scan(l, s).quote == NUL || IsQuote(Scan(l, s).quote)
    decreases |s|
  {
    if s == "" {
    } else {
      QuotesAreQuotes(Step(l, s[0]), s[1..]);
    }
  }

  lemma PrefixOfWords(words: seq<string>, k: nat)
    requires k <= |words| && AreWords(words)
    ensures AreWords(words[..k])
  {
    forall w | w in words[..k]
      ensures w in words
    {
    }
  }

  /** An entry that ends inside a quote is no pattern for the executor. */
  lemma UnbalancedEntry(words: seq<string>, k: nat)
    requires k < |words| && AreWords(words) && AllBalanced(words[..k]) && !Balanced(words[k])
    ensures Tokenize(PrefixEntry(words[..k + 1])).Err?
  {
    hide Contents;
    var past, last := words[..k], words[k];
    assert words[..k + 1][..k] == past && words[..k + 1] == past + [last];
    assert PrefixEntry(words[..k + 1]) == Spaced(past) + (last + " *") by {
      assert last + " " + "*" == last + " *";
    }
    PrefixOfWords(words, k);
    PamScanSpaced(past);
    ReadsWordByWord(Spaced(past));
    var l := Scan(START, Spaced(past));
    ScanWord(l, last);
    ScanWord(START, last);
    QuotesAreQuotes(START, last);
    ScanAppend(START, Spaced(past), last + " *");
    ScanAppend(l, last, " *");
    ScanQuoted(Scan(l, last), " *");
  }

  /** A trimmed entry by which PAM permits the command and the executor does not. */
  lemma Refutation(command: string) returns (entry: string)
    requires !Readable(command) && !NeverMatchedByTokens(command)
    ensures TrimSpace(entry) == entry && PamPermits(entry, command) && !EntryPermits(entry, command)
  {
    hide Tokenize, PamTokenize, TrimSpace, HasMetacharacter, Contents, PrefixEntry, Balanced, IsSpace;
    var words := PamTokenize(command);
    PamTokensAreWords(command);
    var asked := words;
    if !AllBalanced(words) {
      var k := FirstUnbalanced(words);
      asked := words[..k + 1];
      PrefixOfWords(words, k + 1);
      UnbalancedEntry(words, k);
    }
    assert asked <= words && asked[0] == words[0] && words[0] in words;
    entry := PrefixEntry(asked);
    PamReadsPrefixEntry(asked);
    PrefixEntryIsTrimmed(asked);
    assert (asked + ["*"])[..|asked|] == asked;
    assert entry != command by {
      if entry == command {
        assert words[|asked|] == "*" && "*" in words;
        StarIsDangerous("*", 0);
      }
    }
  }

  predicate IsSafe(command: string) {
    Readable(command) || NeverMatchedByTokens(command)
  }

  /** PAM's permission by any trimmed entry guarantees the executor's exactly when the executor can take the command apart
      as PAM does, or PAM matches it by "*" or literally at most. */
  lemma SubmissionGuarantees(command: string)
    requires command != ""
    ensures Guaranteed(command) <==> IsSafe(command)
  {
    hide PamPermits, EntryPermits, Readable, NeverMatchedByTokens;
    if IsSafe(command) {
      forall entry: string | TrimSpace(entry) == entry && PamPermits(entry, command)
        ensures EntryPermits(entry, command)
      {
        if Readable(command) {
          ReadableIsPermitted(entry, command);
        } else {
          UnmatchedIsPermitted(entry, command);
        }
      }
    } else {
      var entry := Refutation(command);
    }
  }

  lemma UnsafeIsNeither(command: string)
    requires !IsSafe(command)
    ensures !Readable(command) && !NeverMatchedByTokens(command)
  {
  }

  lemma SafeFilingsPass(allowlist: seq<string>, command: string)
    requires command != "" && IsSafe(command) && PamAllowed(allowlist, command)
    requires forall i :: 0 <= i < |allowlist| ==> TrimSpace(allowlist[i]) == allowlist[i]
    ensures Allowed(allowlist, command)
  {
    hide PamPermits, EntryPermits, IsSafe;
    SubmissionGuarantees(command);
    var i :| 0 <= i < |allowlist| && PamPermits(allowlist[i], command);
    assert EntryPermits(allowlist[i], command);
  }

  /** In particular for commands without quotes and NUL, whatever the entries hold. */
  lemma SimpleCommandsAreSafe(command: string)
    requires Simple(command)
    ensures IsSafe(command)
  {
    hide Tokenize, PamTokenize, HasMetacharacter;
    TokenizersAgree(command);
    var words := PamTokenize(command);
    if words != [] {
      forall w | w in words
        ensures Balanced(w)
      {
        WordsOfSimple(command, w);
        TokenizersAgree(w);
      }
    }
  }

  lemma WordsOfSimple(s: string, word: string)
    requires Simple(s) && word in PamTokenize(s)
    ensures Simple(word)
  {
    PamScanSimple(START, s);
  }

  predicate AllSimple(l: Lexer) {
    Simple(l.current) && forall w :: w in l.tokens ==> Simple(w)
  }

  lemma {:induction false} PamScanSimple(l: Lexer, s: string)
    requires AllSimple(l) && Simple(s)
    ensures AllSimple(Flush(PamScan(l, s)))
    decreases |s|
  {
    if s == "" {
    } else {
      PamScanSimple(PamStep(l, s[0]), s[1..]);
    }
  }

  // ---------------------------------------------------------------- the other direction

  /** The executor can match the command by tokens. */
  predicate MatchedByTokens(command: string) {
    Tokenize(command).Ok? && Tokenize(command).value != [] && Executor.Harmless(Tokenize(command).value)
  }

  /** Whatever the executor permits by a trimmed entry, PAM permits by it too. */
  ghost predicate Implied(command: string) {
    forall entry: string :: TrimSpace(entry) == entry && EntryPermits(entry, command) ==> PamPermits(entry, command)
  }

  const QUOTED_STAR := "'*'"

  /** A quoted star is a wildcard for the executor. */
  lemma ExecutorTakesQuotedStar(command: string)
    requires MatchedByTokens(command)
    ensures Permits(QUOTED_STAR, command) && QUOTED_STAR != command
  {
    hide HasMetacharacter, Tokenize, TokensMatch, Executor.Harmless;
    assert ['\''] + "*" + ['\''] == QUOTED_STAR;
    QuotedWord("*", '\'');
    StarTakesAll(Tokenize(command).value);
    StarIsHarmful();
  }

  lemma StarTakesAll(tokens: seq<string>)
    requires tokens != []
    ensures TokensMatch(["*"], tokens)
  {
    assert ["*"][..0] <= tokens;
  }

  lemma StarIsHarmful()
    ensures !Executor.Harmless(["*"])
  {
    StarIsDangerous("*", 0);
    assert "*" in ["*"];
  }

  /** For PAM it is a word that holds a star. */
  lemma PamRefusesQuotedStar(command: string)
    requires QUOTED_STAR != command
    ensures !PamPermits(QUOTED_STAR, command)
  {
    hide HasMetacharacter, PamTokenize;
    BlankFreeIsOneToken(QUOTED_STAR);
    StarIsDangerous(QUOTED_STAR, 1);
    if TokensMatch(PamTokenize(QUOTED_STAR), PamTokenize(command)) {
      assert PamTokenize(command)[0] == QUOTED_STAR && QUOTED_STAR in PamTokenize(command);
    }
  }

  lemma QuotedStarDivides(command: string)
    requires MatchedByTokens(command)
    ensures TrimSpace(QUOTED_STAR) == QUOTED_STAR && EntryPermits(QUOTED_STAR, command) && !PamPermits(QUOTED_STAR, command)
  {
    hide MatchedByTokens, Permits, PamPermits;
    TrimmedEnds(QUOTED_STAR);
    ExecutorTakesQuotedStar(command);
    PamRefusesQuotedStar(command);
  }

  /** The executor's permission by any trimmed entry guarantees PAM's exactly when it never matches the command by tokens. */
  lemma ExecutionImpliesSubmission(command: string)
    ensures Implied(command) <==> !MatchedByTokens(command)
  {
    hide HasMetacharacter, PamTokenize, TrimSpace;
    if MatchedByTokens(command) {
      QuotedStarDivides(command);
    }
  }

  /** So the two matchers agree on every trimmed entry, quotes and all, for exactly the commands that neither ever matches
      by tokens. */
  lemma MatchersAgreeOnEveryEntry(command: string)
    requires command != ""
    ensures (forall entry: string :: TrimSpace(entry) == entry ==>
               (PamPermits(entry, command) <==> EntryPermits(entry, command)))
            <==> NeverMatchedByTokens(command) && !MatchedByTokens(command)
  {
    hide PamPermits, EntryPermits, HasMetacharacter, PamTokenize, Tokenize;
    SubmissionGuarantees(command);
    ExecutionImpliesSubmission(command);
    if Readable(command) && !MatchedByTokens(command) {
      UnmatchedIsNeverMatched(command);
    }
  }

  lemma UnmatchedIsNeverMatched(command: string)
    requires Readable(command) && !MatchedByTokens(command)
    ensures NeverMatchedByTokens(command)
  {
    hide HasMetacharacter, Tokenize, PamTokenize, Contents;
    ReadsWordByWord(command);
    PamTokensAreWords(command);
    if Executor.Harmless(PamTokenize(command)) {
      ContentsAreHarmless(PamTokenize(command));
    }
  }
}
