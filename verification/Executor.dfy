/** The command executor: quote-aware tokenizer, allowlist matcher, and everything `Execute` decides before it
    starts a process. */
module Executor {
  import opened Text
  import opened Wrappers

  // ---------------------------------------------------------------- tokenizer

  const NUL: char := '\0'

  predicate IsQuote(c: char) {
    c == '\'' || c == '"'
  }

  predicate IsBlank(c: char) {
    c == ' ' || c == '\t' || c == '\n' || c == '\r'
  }

  /** The three variables of the tokenizer's loop; `quote` is NUL outside quoted spans. */
  datatype Lexer = Lexer(tokens: seq<string>, current: string, quote: char)

  const START := Lexer([], "", NUL)

  function Flush(l: Lexer): Lexer {
    if l.current == "" then l else Lexer(l.tokens + [l.current], "", l.quote)
  }

  /** One character. The second case also swallows a NUL that stands outside quotes. */
  function Step(l: Lexer, c: char): Lexer {
    if IsQuote(c) && l.quote == NUL then l.(quote := c)
    else if c == l.quote then l.(quote := NUL)
    else if l.quote == NUL && IsBlank(c) then Flush(l)
    else l.(current := l.current + [c])
  }

  function Scan(l: Lexer, s: string): Lexer
    decreases |s|
  {
    if s == "" then l else Scan(Step(l, s[0]), s[1..])
  }

  function Tokenize(s: string): Result<seq<string>> {
    var l := Scan(START, s);
    if l.quote != NUL then Err(Unclosed(l.quote)) else Ok(Flush(l).tokens)
  }

  function Unclosed(quote: char): string {
    "unclosed quote " + [quote] + " in command"
  }

  method TokenizeCommand(s: string) returns (r: Result<seq<string>>)
    ensures r == Tokenize(s)
  {
    var tokens: seq<string>, current: string, inQuote := [], "", NUL;
    for i := 0 to |s|
      invariant Scan(START, s) == Scan(Lexer(tokens, current, inQuote), s[i..])
    {
      var ch := s[i];
      if (ch == '\'' || ch == '"') && inQuote == NUL {
        inQuote := ch;
      } else if ch == inQuote {
        inQuote := NUL;
      } else if inQuote == NUL && (ch == ' ' || ch == '\t' || ch == '\n' || ch == '\r') {
        if |current| > 0 {
          tokens, current := tokens + [current], "";
        }
      } else {
        current := current + [ch];
      }
      assert s[i..][1..] == s[i + 1..];
    }
    if inQuote != NUL {
      return Err(Unclosed(inQuote));
    }
    if |current| > 0 {
      tokens := tokens + [current];
    }
    return Ok(tokens);
  }

  lemma {:induction false} ScanAppend(l: Lexer, s: string, t: string)
    ensures Scan(l, s + t) == Scan(Scan(l, s), t)
    decreases |s|
  {
    if s == "" {
      assert s + t == t;
    } else {
      assert (s + t)[1..] == s[1..] + t;
      ScanAppend(Step(l, s[0]), s[1..], t);
    }
  }

  predicate NoneEmpty(tokens: seq<string>) {
    forall i :: 0 <= i < |tokens| ==> tokens[i] != ""
  }

  lemma {:induction false} ScanKeepsTokensNonempty(l: Lexer, s: string)
    requires NoneEmpty(l.tokens)
    ensures NoneEmpty(Flush(Scan(l, s)).tokens)
    decreases |s|
  {
    if s == "" {
    } else {
      ScanKeepsTokensNonempty(Step(l, s[0]), s[1..]);
    }
  }

  /** No token is ever empty: an empty quoted span alone yields no token at all. */
  lemma TokensAreNonempty(s: string)
    requires Tokenize(s).Ok?
    ensures NoneEmpty(Tokenize(s).value)
  {
    ScanKeepsTokensNonempty(START, s);
  }

  // ---------------------------------------------------------------- what a command line means

  /** A command line as its author meant it: blanks, plain characters and quoted spans. */
  datatype Item = Blank(c: char) | Plain(c: char) | Quoted(mark: char, text: string) {
    predicate WellFormed() {
      match this
      case Blank(c) => IsBlank(c)
      case Plain(c) => !IsBlank(c) && !IsQuote(c) && c != NUL
      case Quoted(mark, text) => IsQuote(mark) && mark !in text
    }

    function Written(): string {
      if Quoted? then [mark] + text + [mark] else [c]
    }
  }

  predicate WellFormed(items: seq<Item>) {
    forall i :: 0 <= i < |items| ==> items[i].WellFormed()
  }

  function Written(items: seq<Item>): string {
    if items == [] then "" else items[0].Written() + Written(items[1..])
  }

  function Word(w: string): seq<string> {
    if w == "" then [] else [w]
  }

  /** The nonempty words between blanks, `w` being the part of the first word already read. */
  function Words(items: seq<Item>, w: string): seq<string> {
    if items == [] then Word(w)
    else match items[0]
      case Blank(_) => Word(w) + Words(items[1..], "")
      case Plain(c) => Words(items[1..], w + [c])
      case Quoted(_, text) => Words(items[1..], w + text)
  }

  lemma {:induction false} ScanQuoted(l: Lexer, text: string)
    requires l.quote != NUL && l.quote !in text
    ensures Scan(l, text) == l.(current := l.current + text)
    decreases |text|
  {
    if text == "" {
      assert l.current + text == l.current;
    } else {
      ScanQuoted(l.(current := l.current + [text[0]]), text[1..]);
      assert l.current + [text[0]] + text[1..] == l.current + text;
    }
  }

  lemma ScanItem(l: Lexer, item: Item)
    requires l.quote == NUL && item.WellFormed()
    ensures Scan(l, item.Written()) ==
            match item
            case Blank(_) => Flush(l)
            case Plain(c) => l.(current := l.current + [c])
            case Quoted(_, text) => l.(current := l.current + text)
  {
    if item.Quoted? {
      var inside := l.(quote := item.mark);
      assert item.Written() == [item.mark] + (item.text + [item.mark]);
      ScanAppend(l, [item.mark], item.text + [item.mark]);
      ScanAppend(inside, item.text, [item.mark]);
      ScanQuoted(inside, item.text);
    }
  }

  lemma ScanNothing(l: Lexer)
    ensures Scan(l, "") == l
  {
  }

  lemma {:induction false} ScanItems(l: Lexer, items: seq<Item>)
    requires l.quote == NUL && WellFormed(items)
    ensures Scan(l, Written(items)).quote == NUL
    ensures Flush(Scan(l, Written(items))).tokens == l.tokens + Words(items, l.current)
    decreases |items|
  {
    hide Scan, Item.Written, Item.WellFormed;
    if items == [] {
      ScanNothing(l);
    } else {
      var next := Scan(l, items[0].Written());
      ScanItem(l, items[0]);
      ScanAppend(l, items[0].Written(), Written(items[1..]));
      ScanItems(next, items[1..]);
    }
  }

  /** Whatever quoting the author chose, tokenizing recovers the words that were meant. */
  lemma TokenizeRecoversWords(items: seq<Item>)
    requires WellFormed(items)
    ensures Tokenize(Written(items)) == Ok(Words(items, ""))
  {
    ScanItems(START, items);
    assert START.tokens + Words(items, "") == Words(items, "");
  }

  /** Conversely the tokenizer accepts a NUL-free text exactly when it can be read as such a command line. */
  lemma AcceptedTextsAreWritten(s: string)
    requires NUL !in s
    ensures Tokenize(s).Ok? <==> exists items :: WellFormed(items) && Written(items) == s
  {
    if Tokenize(s).Ok? {
      var items := Read(START, s);
    }
    if items: seq<Item> :| WellFormed(items) && Written(items) == s {
      TokenizeRecoversWords(items);
    }
  }

  lemma {:induction false} Read(l: Lexer, s: string) returns (items: seq<Item>)
    requires l.quote == NUL && NUL !in s && Scan(l, s).quote == NUL
    ensures WellFormed(items) && Written(items) == s
    decreases |s|
  {
    if s == "" {
      return [];
    }
    var item, rest;
    if IsQuote(s[0]) {
      var inside := l.(quote := s[0]);
      var k := ClosingQuote(inside, s[1..]);
      item, rest := Quoted(s[0], s[1..][..k]), s[1..][k + 1..];
      assert s[1..] == s[1..][..k] + [s[0]] + rest;
      ScanAppend(inside, s[1..][..k] + [s[0]], rest);
      ScanAppend(inside, s[1..][..k], [s[0]]);
      ScanQuoted(inside, s[1..][..k]);
    } else {
      item, rest := if IsBlank(s[0]) then Blank(s[0]) else Plain(s[0]), s[1..];
    }
    var next := Scan(l, item.Written());
    assert s == item.Written() + rest;
    ScanAppend(l, item.Written(), rest);
    ScanItem(l, item);
    var tail := Read(next, rest);
    items := [item] + tail;
    assert items[1..] == tail;
  }

  lemma {:induction false} ClosingQuote(l: Lexer, s: string) returns (k: nat)
    requires IsQuote(l.quote) && Scan(l, s).quote == NUL
    ensures k < |s| && s[k] == l.quote && l.quote !in s[..k]
    decreases |s|
  {
    if s[0] == l.quote {
      k := 0;
    } else {
      var j := ClosingQuote(Step(l, s[0]), s[1..]);
      k := j + 1;
      assert s[..k] == [s[0]] + s[1..][..j];
    }
  }

  // The alphabet, spelled out.

  /** Each of the four blanks separates words when it stands outside quotes. */
  lemma BlankSeparates(s: string, blank: char, t: string)
    requires blank in " \t\n\r" && Scan(START, s).quote == NUL
    ensures Tokenize(s + [blank] + t) ==
            if Tokenize(t).Ok? then Ok(Tokenize(s).value + Tokenize(t).value) else Tokenize(t)
  {
    ScanAppend(START, s + [blank], t);
    ScanAppend(START, s, [blank]);
    var l := Scan(START, s);
    assert Scan(l, [blank]) == Flush(l) by {
      assert IsBlank(blank) && !IsQuote(blank) && [blank][1..] == "";
    }
    ScanFrom(Flush(l), t);
    var before, r := Flush(l).tokens, Scan(START, t);
    assert Scan(START, s + [blank] + t) == Lexer(before + r.tokens, r.current, r.quote);
    assert before + (r.tokens + [r.current]) == before + r.tokens + [r.current];
  }

  /** Earlier tokens do not influence later ones. */
  lemma {:induction false} ScanFrom(l: Lexer, s: string)
    ensures var r := Scan(Lexer([], l.current, l.quote), s);
            Scan(l, s) == Lexer(l.tokens + r.tokens, r.current, r.quote)
    decreases |s|
  {
    if s == "" {
      assert l.tokens + [] == l.tokens;
    } else {
      var start := Lexer([], l.current, l.quote);
      var next, first := Step(l, s[0]), Step(start, s[0]);
      ScanFrom(next, s[1..]);
      ScanFrom(first, s[1..]);
      assert next.tokens == l.tokens + first.tokens;
      var rest := Scan(Lexer([], next.current, next.quote), s[1..]).tokens;
      assert l.tokens + first.tokens + rest == l.tokens + (first.tokens + rest);
    }
  }

  /** Between either pair of quotes every other character stands for itself, blanks included. */
  lemma QuotesProtect(mark: char, text: string)
    requires mark in "'\"" && mark !in text && text != ""
    ensures Tokenize([mark] + text + [mark]) == Ok([text])
  {
    var items := [Quoted(mark, text)];
    TokenizeRecoversWords(items);
    assert items[1..] == [] && "" + text == text;
    assert Written(items) == [mark] + text + [mark] && Words(items, "") == [text];
  }

  /** And every character but blanks, quotes and NUL stands for itself without quotes. */
  lemma PlainTextIsOneToken(s: string)
    requires s != "" && forall i :: 0 <= i < |s| ==> s[i] !in " \t\n\r'\"" && s[i] != '\0'
    ensures Tokenize(s) == Ok([s])
  {
    ScanPlain(START, s);
    assert "" + s == s && [] + [s] == [s];
  }

  lemma {:induction false} ScanPlain(l: Lexer, s: string)
    requires l.quote == NUL && forall i :: 0 <= i < |s| ==> s[i] !in " \t\n\r'\"" && s[i] != '\0'
    ensures Scan(l, s) == l.(current := l.current + s)
    decreases |s|
  {
    if s == "" {
      assert l.current + s == l.current;
    } else {
      PlainChar(s[0]);
      ScanPlain(Step(l, s[0]), s[1..]);
      assert l.current + [s[0]] + s[1..] == l.current + s;
    }
  }

  lemma PlainChar(c: char)
    ensures c !in " \t\n\r'\"" <==> !IsBlank(c) && !IsQuote(c)
  {
    var alphabet := " \t\n\r'\"";
    assert alphabet[0] == ' ' && alphabet[1] == '\t' && alphabet[2] == '\n' && alphabet[3] == '\r' && alphabet[4] == '\''
           && alphabet[5] == '"';
  }

  /** Why NUL is excluded: outside quotes it vanishes and joins the text around it. */
  lemma UnquotedNulVanishes(s: string, t: string)
    requires Scan(START, s).quote == NUL
    ensures Tokenize(s + [NUL] + t) == Tokenize(s + t)
  {
    ScanAppend(START, s + [NUL], t);
    ScanAppend(START, s, [NUL]);
    ScanAppend(START, s, t);
    assert Scan(Scan(START, s), [NUL]) == Scan(START, s);
  }

  /** Quoting every character: a single quote goes inside double quotes, all others inside single quotes. */
  function QuoteChars(token: string): seq<Item> {
    if token == "" then []
    else [Quoted(if token[0] == '\'' then '"' else '\'', [token[0]])] + QuoteChars(token[1..])
  }

  function QuoteAll(tokens: seq<string>): seq<Item> {
    if tokens == [] then []
    else QuoteChars(tokens[0]) + QuoteRest(tokens[1..])
  }

  function QuoteRest(tokens: seq<string>): seq<Item> {
    if tokens == [] then []
    else [Blank(' ')] + (QuoteChars(tokens[0]) + QuoteRest(tokens[1..]))
  }

  lemma WordsOfQuoted(mark: char, text: string, rest: seq<Item>, w: string)
    ensures Words([Quoted(mark, text)] + rest, w) == Words(rest, w + text)
  {
    assert ([Quoted(mark, text)] + rest)[1..] == rest;
  }

  lemma {:induction false} QuotedCharsAreWellFormed(token: string)
    ensures WellFormed(QuoteChars(token))
  {
    if token == "" {
    } else {
      QuotedCharsAreWellFormed(token[1..]);
    }
  }

  lemma {:induction false} QuoteCharsMeansToken(token: string, rest: seq<Item>, w: string)
    ensures Words(QuoteChars(token) + rest, w) == Words(rest, w + token)
  {
    hide Words;
    if token == "" {
      assert QuoteChars(token) + rest == rest && w + token == w;
    } else {
      var first, tail := QuoteChars(token)[0], QuoteChars(token[1..]);
      QuoteCharsMeansToken(token[1..], rest, w + [token[0]]);
      assert QuoteChars(token) + rest == [first] + (tail + rest);
      WordsOfQuoted(first.mark, first.text, tail + rest, w);
      assert w + [token[0]] + token[1..] == w + token;
    }
  }

  lemma {:induction false} QuoteRestMeansTokens(tokens: seq<string>, w: string)
    requires NoneEmpty(tokens)
    ensures WellFormed(QuoteRest(tokens)) && Words(QuoteRest(tokens), w) == Word(w) + tokens
  {
    if tokens == [] {
      assert Word(w) + tokens == Word(w);
    } else {
      var rest := QuoteRest(tokens[1..]);
      var t := tokens[0];
      assert QuoteRest(tokens)[1..] == QuoteChars(t) + rest;
      QuotedCharsAreWellFormed(t);
      QuoteCharsMeansToken(t, rest, "");
      QuoteRestMeansTokens(tokens[1..], t);
      assert "" + t == t && Word(t) + tokens[1..] == tokens;
    }
  }

  lemma QuoteAllMeansTokens(tokens: seq<string>)
    requires NoneEmpty(tokens)
    ensures WellFormed(QuoteAll(tokens)) && Words(QuoteAll(tokens), "") == tokens
  {
    if tokens != [] {
      var rest := QuoteRest(tokens[1..]);
      QuotedCharsAreWellFormed(tokens[0]);
      QuoteCharsMeansToken(tokens[0], rest, "");
      QuoteRestMeansTokens(tokens[1..], tokens[0]);
      assert "" + tokens[0] == tokens[0] && Word(tokens[0]) + tokens[1..] == tokens;
    }
  }

  /** Any list of nonempty tokens over any characters survives quoting and tokenizing. */
  lemma TokenizeRoundTrip(tokens: seq<string>)
    requires NoneEmpty(tokens)
    ensures Tokenize(Written(QuoteAll(tokens))) == Ok(tokens)
  {
    QuoteAllMeansTokens(tokens);
    TokenizeRecoversWords(QuoteAll(tokens));
  }

  // ---------------------------------------------------------------- matcher

  const DANGEROUS := ";|&<>`$(){}[]!*?~"

  predicate HasMetacharacter(token: string) {
    exists c :: c in token && c in DANGEROUS
  }

  method ContainsShellMetacharacters(token: string) returns (found: bool)
    ensures found <==> HasMetacharacter(token)
  {
    for i := 0 to |token|
      invariant forall k :: 0 <= k < i ==> token[k] !in DANGEROUS
    {
      for j := 0 to |DANGEROUS|
        invariant forall k :: 0 <= k < j ==> token[i] != DANGEROUS[k]
      {
        if token[i] == DANGEROUS[j] {
          assert token[i] in token && token[i] in DANGEROUS;
          return true;
        }
      }
    }
    return false;
  }

  /** A pattern ending in "*" asks for a prefix, any other for the whole token list. */
  predicate TokensMatch(pattern: seq<string>, command: seq<string>) {
    && pattern != [] && command != []
    && (if pattern[|pattern| - 1] == "*" then pattern[..|pattern| - 1] <= command else pattern == command)
  }

  predicate Harmless(tokens: seq<string>) {
    forall t :: t in tokens ==> !HasMetacharacter(t)
  }

  predicate Permits(pattern: string, command: string) {
    || pattern == "*"
    || pattern == command
    || (&& Tokenize(pattern).Ok? && Tokenize(command).Ok?
        && TokensMatch(Tokenize(pattern).value, Tokenize(command).value)
        && Harmless(Tokenize(command).value))
  }

  /** The part of the matcher that follows tokenizing, which the PAM package repeats word for word. */
  method MatchTokens(patternTokens: seq<string>, commandTokens: seq<string>) returns (matched: bool)
    ensures matched <==> TokensMatch(patternTokens, commandTokens) && Harmless(commandTokens)
  {
    if |patternTokens| == 0 || |commandTokens| == 0 {
      return false;
    }
    var hasWildcard, matchTokens := false, patternTokens;
    if patternTokens[|patternTokens| - 1] == "*" {
      hasWildcard, matchTokens := true, patternTokens[..|patternTokens| - 1];
    }
    if |commandTokens| < |matchTokens| {
      return false;
    }
    if !hasWildcard && |commandTokens| != |matchTokens| {
      return false;
    }
    for i := 0 to |matchTokens|
      invariant forall k :: 0 <= k < i ==> commandTokens[k] == matchTokens[k]
    {
      if commandTokens[i] != matchTokens[i] {
        return false;
      }
    }
    assert matchTokens <= commandTokens;
    for i := 0 to |commandTokens|
      invariant forall k :: 0 <= k < i ==> !HasMetacharacter(commandTokens[k])
    {
      var meta := ContainsShellMetacharacters(commandTokens[i]);
      if meta {
        return false;
      }
    }
    return true;
  }

  method TokenizeAndMatch(pattern: string, command: string) returns (matched: bool)
    ensures matched <==> Permits(pattern, command)
  {
    if pattern == "*" {
      return true;
    }
    if pattern == command {
      return true;
    }
    var patternTokens := TokenizeCommand(pattern);
    if patternTokens.Err? {
      return false;
    }
    var commandTokens := TokenizeCommand(command);
    if commandTokens.Err? {
      return false;
    }
    matched := MatchTokens(patternTokens.value, commandTokens.value);
  }

  /** An allowlist entry counts after trimming, unless it is blank. */
  predicate EntryPermits(entry: string, command: string) {
    TrimSpace(entry) != "" && Permits(TrimSpace(entry), command)
  }

  predicate Allowed(allowlist: seq<string>, command: string) {
    exists i :: 0 <= i < |allowlist| && EntryPermits(allowlist[i], command)
  }

  method IsAllowed(allowlist: seq<string>, command: string) returns (allowed: bool)
    ensures allowed <==> Allowed(allowlist, command)
  {
    for i := 0 to |allowlist|
      invariant forall k :: 0 <= k < i ==> !EntryPermits(allowlist[k], command)
    {
      var pattern := TrimSpace(allowlist[i]);
      if pattern == "" {
        continue;
      }
      var matched := TokenizeAndMatch(pattern, command);
      if matched {
        return true;
      }
    }
    return false;
  }

  // ---------------------------------------------------------------- execution

  /** How a process may end: cleanly, with a nonzero exit code or by a signal, or without having started. */
  datatype Exit = Clean(stdout: string) | Broken(code: int, stdout: string, message: string) | Unstarted(reason: string)

  datatype ExecuteResult = ExecuteResult(stdout: string, exitCode: int)

  /** What `Execute` makes of it: the result, and the text of the error that accompanies it, if any. */
  function Report(exit: Exit): (ExecuteResult, Option<string>) {
    match exit
    case Clean(stdout) => (ExecuteResult(stdout, 0), None)
    case Broken(code, stdout, message) => (ExecuteResult(stdout, code), Some(message))
    case Unstarted(reason) => (ExecuteResult("", 1), Some(reason))
  }

  const NOT_ALLOWED := "command not in allowlist"

  /** The argument vector `Execute` hands to the operating system, if it gets that far. */
  function Argv(allowlist: seq<string>, command: string): Result<seq<string>> {
    if !Allowed(allowlist, command) then Err(NOT_ALLOWED)
    else if Tokenize(command).Err? then Err("invalid command: " + Tokenize(command).message)
    else if Tokenize(command).value == [] then Err("empty command")
    else Tokenize(command)
  }

  method PrepareArgv(allowlist: seq<string>, command: string) returns (r: Result<seq<string>>)
    ensures r == Argv(allowlist, command)
  {
    var allowed := IsAllowed(allowlist, command);
    if !allowed {
      return Err(NOT_ALLOWED);
    }
    var argv := TokenizeCommand(command);
    if argv.Err? {
      return Err("invalid command: " + argv.message);
    }
    if |argv.value| == 0 {
      return Err("empty command");
    }
    return argv;
  }

  /** `argv` is one the entry asks for: its own tokens, or its literal tokens first (and nothing more unless it
      ends in "*") with no metacharacter anywhere. */
  predicate Vetted(entry: string, command: string, argv: seq<string>) {
    var pattern := TrimSpace(entry);
    || (pattern == command && Tokenize(pattern) == Ok(argv))
    || (&& Tokenize(pattern).Ok? && Tokenize(pattern).value != []
        && (var p := Tokenize(pattern).value;
            if p[|p| - 1] == "*" then p[..|p| - 1] <= argv else p == argv)
        && forall t, c :: t in argv && c in t ==> c !in ";|&<>`$(){}[]!*?~")
  }

  /** A process is started exactly for a nonempty argument vector that some entry vets, or any entry "*" lets
      through; every argument is nonempty. */
  lemma ArgvIsVetted(allowlist: seq<string>, command: string, argv: seq<string>)
    ensures Argv(allowlist, command) == Ok(argv) <==>
            && Tokenize(command) == Ok(argv) && argv != []
            && exists i :: 0 <= i < |allowlist| &&
                 (TrimSpace(allowlist[i]) == "*" || (TrimSpace(allowlist[i]) != "" && Vetted(allowlist[i], command, argv)))
    ensures Argv(allowlist, command) == Ok(argv) ==> NoneEmpty(argv)
  {
    if Tokenize(command) == Ok(argv) && argv != [] {
      TokensAreNonempty(command);
      forall i | 0 <= i < |allowlist|
        ensures EntryPermits(allowlist[i], command) <==>
                TrimSpace(allowlist[i]) == "*"
                || (TrimSpace(allowlist[i]) != "" && Vetted(allowlist[i], command, argv))
      {
        EntryVets(allowlist[i], command, argv);
      }
    }
  }

  /** Some entry is "*" or the command itself. */
  predicate IsLiteralEntry(allowlist: seq<string>, command: string) {
    exists i :: 0 <= i < |allowlist| && (TrimSpace(allowlist[i]) == "*" || TrimSpace(allowlist[i]) == command)
  }

  /** A command that passes the allowlist fails later only because it is no list of words, and such a command passes
      only by an entry "*" or by being an entry itself. */
  lemma AllowedArgv(allowlist: seq<string>, command: string)
    requires Allowed(allowlist, command)
    ensures Argv(allowlist, command) != Err(NOT_ALLOWED)
    ensures Argv(allowlist, command).Err? <==> Tokenize(command).Err? || Tokenize(command) == Ok([])
    ensures Argv(allowlist, command).Err? ==> IsLiteralEntry(allowlist, command)
  {
    assert "invalid command: "[0] != NOT_ALLOWED[0];
    assert "empty command"[0] != NOT_ALLOWED[0];
  }

  lemma EntryVets(entry: string, command: string, argv: seq<string>)
    requires Tokenize(command) == Ok(argv) && argv != []
    ensures EntryPermits(entry, command) <==>
            TrimSpace(entry) == "*" || (TrimSpace(entry) != "" && Vetted(entry, command, argv))
  {
    assert Harmless(argv) <==> forall t, c :: t in argv && c in t ==> c !in DANGEROUS;
  }
}
