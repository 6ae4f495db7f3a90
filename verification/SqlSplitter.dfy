/** The migration splitter: cuts SQL text into statements line by line, keeping function bodies whole. */
module SqlSplitter {
  import opened Text
  import opened SqlLines

  // ---------------------------------------------------------------- lines

  /** `strings.Split(s, "\n")`. */
  function Lines(s: string): (lines: seq<string>)
    ensures lines != [] && forall i :: 0 <= i < |lines| ==> '\n' !in lines[i]
  {
    if s == "" then [""]
    else
      var rest := Lines(s[1..]);
      if s[0] == '\n' then [""] + rest else [[s[0]] + rest[0]] + rest[1..]
  }

  /** Not blank and not a comment. */
  ghost predicate Kept(line: string) {
    IsContent(line)
  }

  ghost function KeptLines(lines: seq<string>): seq<string> {
    if lines == [] then []
    else KeptLines(lines[..|lines| - 1]) + if Kept(lines[|lines| - 1]) then [lines[|lines| - 1]] else []
  }

  /** `strings.Count(s, "$$")`: occurrences that do not overlap, from the left. */
  function Dollars(s: string): nat
    decreases |s|
  {
    if |s| < 2 then 0 else if HasPrefix(s, "$$") then 1 + Dollars(s[2..]) else Dollars(s[1..])
  }

  /** The last piece of `strings.Split(s, "$$")`. */
  function AfterDollars(s: string): string
    decreases |s|
  {
    if Dollars(s) == 0 then s else if HasPrefix(s, "$$") then AfterDollars(s[2..]) else AfterDollars(s[1..])
  }

  /** After a body's closing "$$" the statement ends, by a semicolon or by the end of the line. */
  ghost predicate ClosesBody(line: string) {
    EndsWithSemicolon(AfterDollars(line)) || AllSpace(AfterDollars(line))
  }

  // ---------------------------------------------------------------- what a split is

  function Render(lines: seq<string>): string {
    if lines == [] then "" else Render(lines[..|lines| - 1]) + lines[|lines| - 1] + "\n"
  }

  ghost predicate HasHeader(lines: seq<string>) {
    exists i :: 0 <= i < |lines| && NamesFunction(lines[i])
  }

  /** These lines end a statement: outside a function at a semicolon; inside one where the last line holds a "$$", the
      body markers pair up, and nothing but possibly a statement end follows. */
  ghost predicate Ends(lines: seq<string>)
    requires lines != []
  {
    var last := lines[|lines| - 1];
    if HasHeader(lines) then HasMarker(last) && Dollars(Render(lines)) % 2 == 0 && ClosesBody(last)
    else EndsWithSemicolon(last)
  }

  /** No statement ends before the last of these lines. */
  ghost predicate EndsNowhereBefore(lines: seq<string>, k: nat) {
    forall i :: 0 < i < k && i <= |lines| ==> !Ends(lines[..i])
  }

  function Flatten(groups: seq<seq<string>>): seq<string> {
    if groups == [] then [] else Flatten(groups[..|groups| - 1]) + groups[|groups| - 1]
  }

  /** A statement is a shortest run of lines that ends one. */
  ghost predicate IsStatement(lines: seq<string>) {
    lines != [] && Ends(lines) && EndsNowhereBefore(lines, |lines|)
  }

  /** The lines fall into statements, except for a rest in which none ends. */
  ghost predicate IsSplit(lines: seq<string>, groups: seq<seq<string>>, rest: seq<string>) {
    && Flatten(groups) + rest == lines
    && (forall i :: 0 <= i < |groups| ==> IsStatement(groups[i]))
    && EndsNowhereBefore(rest, |rest| + 1)
  }

  function Rendered(groups: seq<seq<string>>): (statements: seq<string>)
    ensures |statements| == |groups|
    ensures forall i :: 0 <= i < |groups| ==> statements[i] == Render(groups[i])
  {
    seq(|groups|, i requires 0 <= i < |groups| => Render(groups[i]))
  }

  /** The leftover becomes a last statement when there is any. */
  function Statements(groups: seq<seq<string>>, rest: seq<string>): seq<string> {
    Rendered(groups) + if rest == [] then [] else [Render(rest)]
  }

  /** These are the statements of the lines; SplitIsUnique makes them the only ones. */
  ghost predicate SplitInto(lines: seq<string>, statements: seq<string>) {
    exists groups, rest :: IsSplit(lines, groups, rest) && statements == Statements(groups, rest)
  }

  // ---------------------------------------------------------------- how a split grows

  lemma NothingToSplit()
    ensures IsSplit([], [], [])
  {
  }

  /** One more line either completes the open statement or extends it. */
  lemma Grow(lines: seq<string>, groups: seq<seq<string>>, rest: seq<string>, line: string)
    requires IsSplit(lines, groups, rest)
    ensures var open := rest + [line];
            && Render(open) == Render(rest) + line + "\n" && open[|open| - 1] == line
            && (HasHeader(open) <==> HasHeader(rest) || NamesFunction(line))
            && (Ends(open) ==> IsSplit(lines + [line], groups + [open], []) && Rendered(groups + [open]) == Rendered(groups) + [Render(open)])
            && (!Ends(open) ==> IsSplit(lines + [line], groups, open))
  {
    hide Ends, NamesFunction;
    var open := rest + [line];
    assert open[..|open| - 1] == rest;
    assert forall i :: 0 < i <= |rest| ==> open[..i] == rest[..i];
    assert open[..|open|] == open;
    assert (groups + [open])[..|groups|] == groups;
    assert Flatten(groups) + open == Flatten(groups) + rest + [line];
    HeaderOfMore(rest, line);
  }

  lemma HeaderOfMore(rest: seq<string>, line: string)
    ensures HasHeader(rest + [line]) <==> HasHeader(rest) || NamesFunction(line)
  {
    hide NamesFunction;
    var open := rest + [line];
    assert open[|rest|] == line && forall i :: 0 <= i < |rest| ==> open[i] == rest[i];
  }

  lemma RenderIsEmpty(lines: seq<string>)
    ensures Render(lines) == "" <==> lines == []
  {
  }

  // ---------------------------------------------------------------- consequences

  lemma PrefixEnds(lines: seq<string>, first: seq<string>)
    requires first != [] && first <= lines && Ends(first)
    ensures Ends(lines[..|first|])
  {
    assert lines[..|first|] == first;
  }

  /** Where nothing ends before position `k`, no ending prefix is shorter than that. */
  lemma NoEarlierEnd(lines: seq<string>, first: seq<string>, k: nat)
    requires first != [] && first <= lines && Ends(first) && EndsNowhereBefore(lines, k)
    ensures k <= |first|
  {
    hide Ends;
    PrefixEnds(lines, first);
  }

  /** There is only one way to split: the properties of a split determine the result completely. */
  lemma {:induction false} SplitIsUnique(lines: seq<string>, g1: seq<seq<string>>, r1: seq<string>,
                                         g2: seq<seq<string>>, r2: seq<string>)
    requires IsSplit(lines, g1, r1) && IsSplit(lines, g2, r2)
    ensures g1 == g2 && r1 == r2
    decreases |g1|
  {
    hide Ends;
    assert [] + r1 == r1 && [] + r2 == r2;
    if g1 != [] {
      FirstStatementIsPrefix(lines, g1, r1);
      if g2 == [] {
        NoEarlierEnd(r2, g1[0], |r2| + 1);
      }
    }
    if g2 != [] {
      FirstStatementIsPrefix(lines, g2, r2);
      if g1 == [] {
        NoEarlierEnd(r1, g2[0], |r1| + 1);
      }
    }
    if g1 != [] && g2 != [] {
      SameFirstStatement(lines, g1[0], g2[0]);
      SplitIsUnique(lines[|g1[0]|..], g1[1..], r1, g2[1..], r2);
      assert g1 == [g1[0]] + g1[1..] && g2 == [g2[0]] + g2[1..];
    }
  }

  lemma SameFirstStatement(lines: seq<string>, a: seq<string>, b: seq<string>)
    requires a <= lines && b <= lines && IsStatement(a) && IsStatement(b)
    ensures a == b
  {
    hide Ends;
    if |a| < |b| {
      NoEarlierEnd(b, a, |b|);
    }
    if |b| < |a| {
      NoEarlierEnd(a, b, |a|);
    }
  }

  lemma FirstStatementIsPrefix(lines: seq<string>, groups: seq<seq<string>>, rest: seq<string>)
    requires IsSplit(lines, groups, rest) && groups != []
    ensures groups[0] <= lines && IsSplit(lines[|groups[0]|..], groups[1..], rest)
  {
    hide Ends;
    FlattenFirst(groups);
    assert lines == groups[0] + (Flatten(groups[1..]) + rest);
  }

  lemma {:induction false} FlattenFirst(groups: seq<seq<string>>)
    requires groups != []
    ensures Flatten(groups) == groups[0] + Flatten(groups[1..])
    decreases |groups|
  {
    hide Flatten;
    var past, last := groups[..|groups| - 1], groups[|groups| - 1];
    FlattenLast(past, last);
    assert groups == past + [last];
    if |groups| == 1 {
      FlattenNothing();
      assert past == [] && groups[1..] == [];
    } else {
      FlattenFirst(past);
      FlattenLast(past[1..], last);
      assert groups[1..] == past[1..] + [last];
    }
  }

  lemma FlattenLast(past: seq<seq<string>>, last: seq<string>)
    ensures Flatten(past + [last]) == Flatten(past) + last
  {
    assert (past + [last])[..|past|] == past;
  }

  lemma FlattenNothing()
    ensures Flatten([]) == []
  {
  }

  function Concat(texts: seq<string>): string {
    if texts == [] then "" else Concat(texts[..|texts| - 1]) + texts[|texts| - 1]
  }

  lemma {:induction false} RenderAppend(a: seq<string>, b: seq<string>)
    ensures Render(a + b) == Render(a) + Render(b)
    decreases |b|
  {
    if b == [] {
      assert a + b == a;
    } else {
      assert (a + b)[..|a + b| - 1] == a + b[..|b| - 1];
      RenderAppend(a, b[..|b| - 1]);
    }
  }

  lemma {:induction false} ConcatRendered(groups: seq<seq<string>>)
    ensures Concat(Rendered(groups)) == Render(Flatten(groups))
    decreases |groups|
  {
    if groups == [] {
    } else {
      var past, last := groups[..|groups| - 1], groups[|groups| - 1];
      ConcatRendered(past);
      assert Rendered(groups)[..|groups| - 1] == Rendered(past);
      RenderAppend(Flatten(past), last);
    }
  }

  /** The splitter loses, duplicates and reorders nothing: its statements, put together again, are the kept lines. */
  lemma NothingIsLost(lines: seq<string>, groups: seq<seq<string>>, rest: seq<string>)
    requires IsSplit(lines, groups, rest)
    ensures Concat(Statements(groups, rest)) == Render(lines)
  {
    ConcatRendered(groups);
    RenderAppend(Flatten(groups), rest);
    var s := Statements(groups, rest);
    if rest == [] {
      assert s == Rendered(groups);
    } else {
      assert s[..|s| - 1] == Rendered(groups);
    }
  }

  lemma {:induction false} LineFirst(line: string, rest: string)
    requires '\n' !in line
    ensures Lines(line + "\n" + rest) == [line] + Lines(rest)
    decreases |line|
  {
    var text := line + "\n" + rest;
    if line == "" {
      assert text[1..] == rest;
    } else {
      LineFirst(line[1..], rest);
      assert text[1..] == line[1..] + "\n" + rest;
      assert [line[0]] + line[1..] == line;
    }
  }

  /** A statement's text holds exactly the lines it was made of. */
  lemma {:induction false} LinesOfRender(lines: seq<string>)
    requires forall i :: 0 <= i < |lines| ==> '\n' !in lines[i]
    ensures Lines(Render(lines)) == lines + [""]
    decreases |lines|
  {
    hide Lines;
    if lines == [] {
      assert Lines("") == [""] by {
        EmptyLine();
      }
    } else {
      LinesOfRender(lines[1..]);
      LineFirst(lines[0], Render(lines[1..]));
      assert lines == [lines[0]] + lines[1..];
      RenderAppend([lines[0]], lines[1..]);
      assert Render([lines[0]]) == lines[0] + "\n" by {
        assert [lines[0]][..0] == [] && "" + lines[0] == lines[0];
      }
    }
  }

  lemma EmptyLine()
    ensures Lines("") == [""]
  {
  }

  /** No cut falls inside an open body: every statement but the last has its "$$" paired if one of its own lines is a
      function header. */
  lemma MarkersPair(lines: seq<string>, groups: seq<seq<string>>, rest: seq<string>, i: nat)
    requires IsSplit(KeptLines(lines), groups, rest) && i < |Statements(groups, rest)| - 1
    requires forall k :: 0 <= k < |lines| ==> '\n' !in lines[k]
    requires HasHeader(Lines(Statements(groups, rest)[i]))
    ensures Dollars(Statements(groups, rest)[i]) % 2 == 0
  {
    hide NamesFunction, HasMarker, Dollars, ClosesBody, Kept, Lines;
    var group := groups[i];
    assert IsStatement(group);
    forall k | 0 <= k < |group|
      ensures '\n' !in group[k]
    {
      FlattenHoldsAll(groups, i, k, KeptLines(lines));
      KeptLinesAreLines(lines, group[k]);
    }
    LinesOfRender(group);
    EmptyIsNoHeader();
    HeaderOfMore(group, "");
  }

  lemma EmptyIsNoHeader()
    ensures !NamesFunction("")
  {
  }

  lemma {:induction false} KeptLinesAreLines(lines: seq<string>, line: string)
    requires line in KeptLines(lines)
    ensures line in lines
    decreases |lines|
  {
    hide Kept;
    if line in KeptLines(lines[..|lines| - 1]) {
      KeptLinesAreLines(lines[..|lines| - 1], line);
    } else {
      assert line == lines[|lines| - 1];
    }
  }

  lemma {:induction false} FlattenHoldsAll(groups: seq<seq<string>>, i: nat, k: nat, all: seq<string>)
    requires i < |groups| && k < |groups[i]| && Flatten(groups) <= all
    ensures groups[i][k] in all
    decreases |groups|
  {
    var past := groups[..|groups| - 1];
    if i < |past| {
      assert Flatten(past) <= all;
      FlattenHoldsAll(past, i, k, all);
    } else {
      assert all[|Flatten(past)| + k] == groups[i][k];
    }
  }

  /** All of it together, about the statements themselves. */
  lemma SplitIsSound(lines: seq<string>, groups: seq<seq<string>>, rest: seq<string>)
    requires IsSplit(KeptLines(lines), groups, rest)
    requires forall k :: 0 <= k < |lines| ==> '\n' !in lines[k]
    ensures var statements := Statements(groups, rest);
            && Concat(statements) == Render(KeptLines(lines))
            && (forall i :: 0 <= i < |statements| - 1 && HasHeader(Lines(statements[i])) ==> Dollars(statements[i]) % 2 == 0)
            && (forall i :: 0 <= i < |statements| ==> IsExecutable(statements[i]))
  {
    hide IsSplit, KeptLines, Statements, HasHeader, Dollars, Lines, IsExecutable, Concat, Render;
    NothingIsLost(KeptLines(lines), groups, rest);
    var statements := Statements(groups, rest);
    forall i | 0 <= i < |statements| - 1 && HasHeader(Lines(statements[i]))
      ensures Dollars(statements[i]) % 2 == 0
    {
      MarkersPair(lines, groups, rest, i);
    }
    forall i | 0 <= i < |statements|
      ensures IsExecutable(statements[i])
    {
      EveryStatementRuns(lines, groups, rest, i);
    }
  }

  /** So if some part of a line of such a statement reads like a function header, in whatever case, the statement has its
      "$$" paired. */
  lemma BodiesStayWhole(sql: string, statements: seq<string>, i: nat, k: nat, a: string, w: string, b: string)
    requires SplitInto(KeptLines(Lines(sql)), statements) && i < |statements| - 1
    requires k < |Lines(statements[i])| && Lines(statements[i])[k] == a + w + b
    requires SameLetters(w, "CREATE OR REPLACE FUNCTION") || SameLetters(w, "CREATE FUNCTION")
    ensures Dollars(statements[i]) % 2 == 0
  {
    hide IsSplit, KeptLines, Statements, SameLetters, Dollars, Lines;
    var groups, rest :| IsSplit(KeptLines(Lines(sql)), groups, rest) && statements == Statements(groups, rest);
    assert NamesFunction(Lines(statements[i])[k]);
    MarkersPair(Lines(sql), groups, rest, i);
  }

  /** Trimmed, the statement is neither blank nor a comment, so that the migration loop does not skip it. */
  predicate IsExecutable(statement: string) {
    TrimSpace(statement) != "" && !HasPrefix(TrimSpace(statement), "--")
  }

  // ---------------------------------------------------------------- running the statements

  lemma {:induction false} TrimLeftAppend(s: string, t: string)
    requires TrimLeft(s) != ""
    ensures TrimLeft(s + t) == TrimLeft(s) + t
  {
    if !IsSpace(s[0]) {
    } else {
      assert (s + t)[1..] == s[1..] + t;
      TrimLeftAppend(s[1..], t);
    }
  }

  lemma {:induction false} TrimRightKeeps(s: string, k: nat)
    requires k < |s| && !IsSpace(s[k])
    ensures k < |TrimRight(s)|
  {
    if !IsSpace(s[|s| - 1]) {
    } else {
      TrimRightKeeps(s[..|s| - 1], k);
    }
  }

  /** Text that starts with a kept line is neither blank nor a comment. */
  lemma KeptStart(line: string, rest: string)
    requires Kept(line)
    ensures TrimSpace(line + "\n" + rest) != "" && !HasPrefix(TrimSpace(line + "\n" + rest), "--")
  {
    hide TrimSpace, TrimLeft, TrimRight, IsSpace, HasPrefix;
    var t, more := TrimLeft(line), "\n" + rest;
    NotBlank(line);
    DashAndNewline();
    assert line + "\n" + rest == line + more;
    TrimLeftAppend(line, more);
    StartIsSeen(t, more);
    TrimmedInTwo(line + more);
  }

  lemma TrimmedInTwo(s: string)
    ensures TrimSpace(s) == TrimRight(TrimLeft(s))
  {
  }

  lemma NotBlank(line: string)
    requires Kept(line)
    ensures TrimLeft(line) != "" && !HasPrefix(TrimRight(TrimLeft(line)), "--")
  {
    hide HasPrefix;
    ContentTest(line);
  }

  /** Trimming at the end leaves a beginning that is no comment as it is. */
  lemma StartIsSeen(t: string, more: string)
    requires t != "" && !IsSpace(t[0]) && !HasPrefix(TrimRight(t), "--")
    requires more == "" || IsSpace(more[0])
    ensures TrimRight(t + more) != "" && !HasPrefix(TrimRight(t + more), "--")
  {
    hide TrimRight, IsSpace;
    TrimRightKeeps(t + more, 0);
    DashAndNewline();
    if HasPrefix(TrimRight(t + more), "--") {
      assert (t + more)[..2] == "--";
      assert (t + more)[1] == '-' && t[0] == '-';
      if |t| > 1 {
        TrimRightKeeps(t, 1);
      }
    }
  }

  lemma DashAndNewline()
    ensures !IsSpace('-') && IsSpace('\n')
  {
  }

  lemma {:induction false} RenderStart(lines: seq<string>)
    requires lines != []
    ensures exists tail :: Render(lines) == lines[0] + "\n" + tail
    decreases |lines|
  {
    if |lines| == 1 {
      assert Render(lines[..0]) == "";
      assert Render(lines) == lines[0] + "\n" + "";
    } else {
      RenderStart(lines[..|lines| - 1]);
      var tail :| Render(lines[..|lines| - 1]) == lines[0] + "\n" + tail;
      assert Render(lines) == lines[0] + "\n" + (tail + lines[|lines| - 1] + "\n");
    }
  }

  lemma {:induction false} KeptLinesAreKept(lines: seq<string>, i: nat)
    requires i < |KeptLines(lines)|
    ensures Kept(KeptLines(lines)[i])
    decreases |lines|
  {
    hide Kept;
    if i >= |KeptLines(lines[..|lines| - 1])| {
    } else {
      KeptLinesAreKept(lines[..|lines| - 1], i);
    }
  }

  /** Each statement has something to execute, so the two skips in the migration loop never happen. */
  lemma EveryStatementRuns(lines: seq<string>, groups: seq<seq<string>>, rest: seq<string>, i: nat)
    requires IsSplit(KeptLines(lines), groups, rest) && i < |Statements(groups, rest)|
    ensures IsExecutable(Statements(groups, rest)[i])
  {
    hide Kept, Ends;
    var all := KeptLines(lines);
    var group := if i < |groups| then groups[i] else rest;
    var k: nat;
    if i < |groups| {
      assert IsStatement(groups[i]);
      FlattenHoldsAll(groups, i, 0, all);
      k :| 0 <= k < |all| && all[k] == group[0];
    } else {
      k := |Flatten(groups)|;
    }
    KeptLinesAreKept(lines, k);
    RenderStart(group);
    var tail :| Render(group) == group[0] + "\n" + tail;
    KeptStart(group[0], tail);
  }

  // ---------------------------------------------------------------- markers

  lemma NoPairAtCut(s: string, t: string)
    requires s != "" && s[|s| - 1] != '$' && !HasPrefix(s, "$$")
    ensures !HasPrefix(s + t, "$$")
  {
    if |s| == 1 {
      assert (s + t)[0] == s[0] != "$$"[0];
    } else {
      assert (s + t)[..2] == s[..2];
    }
  }

  /** Markers on both sides of a cut count on their own, if the cut is not between two dollar signs. */
  lemma {:induction false} DollarsAppend(s: string, t: string)
    requires s == "" || s[|s| - 1] != '$'
    ensures Dollars(s + t) == Dollars(s) + Dollars(t)
    decreases |s|
  {
    if s == "" {
      assert s + t == t;
    } else if HasPrefix(s, "$$") {
      assert (s + t)[2..] == s[2..] + t;
      DollarsAppend(s[2..], t);
    } else {
      assert (s + t)[1..] == s[1..] + t;
      NoPairAtCut(s, t);
      DollarsAppend(s[1..], t);
    }
  }

  lemma {:induction false} NoDollars(s: string)
    requires '$' !in s
    ensures Dollars(s) == 0
    decreases |s|
  {
    if |s| < 2 {
    } else {
      assert s[0] in s && s[0] != "$$"[0];
      NoDollars(s[1..]);
    }
  }

  lemma OneMarker(rest: string)
    ensures Dollars("$$" + rest) == 1 + Dollars(rest)
  {
    assert ("$$" + rest)[2..] == rest;
  }

  /** What follows the last marker. */
  lemma {:induction false} AfterLastMarker(a: string, rest: string)
    requires (a == "" || a[|a| - 1] != '$') && '$' !in rest
    ensures AfterDollars(a + "$$" + rest) == rest
    decreases |a|
  {
    var s := a + "$$" + rest;
    DollarsAppend(a, "$$" + rest);
    assert s == a + ("$$" + rest);
    OneMarker(rest);
    NoDollars(rest);
    if a == "" {
      assert s == "$$" + rest && s[2..] == rest;
    } else if HasPrefix(a, "$$") {
      assert s[2..] == a[2..] + "$$" + rest;
      AfterLastMarker(a[2..], rest);
    } else {
      assert s[1..] == a[1..] + "$$" + rest;
      NoPairAtCut(a, "$$" + rest);
      AfterLastMarker(a[1..], rest);
    }
  }

  lemma {:induction false} SpacesBefore(x: string, s: string)
    requires AllSpace(x)
    ensures Dollars(x + s) == Dollars(s)
    ensures Dollars(s) > 0 ==> AfterDollars(x + s) == AfterDollars(s)
    decreases |x|
  {
    if x == "" {
      assert x + s == s;
    } else {
      assert (x + s)[1..] == x[1..] + s && (x + s)[0] == x[0] != "$$"[0];
      SpacesBefore(x[1..], s);
    }
  }

  lemma SpacesHoldNoDollar(y: string)
    requires AllSpace(y)
    ensures '$' !in y
  {
  }

  lemma {:induction false} SpacesBehind(s: string, y: string)
    requires AllSpace(y)
    ensures Dollars(s + y) == Dollars(s)
    ensures Dollars(s) > 0 ==> AfterDollars(s + y) == AfterDollars(s) + y
    decreases |s|
  {
    SpacesHoldNoDollar(y);
    NoDollars(y);
    if s == "" {
      assert s + y == y;
    } else if |s| == 1 {
      assert (s + y)[1..] == y;
      assert y != "" ==> (s + y)[1] == y[0] != "$$"[1];
    } else if HasPrefix(s, "$$") {
      assert (s + y)[2..] == s[2..] + y && (s + y)[..2] == s[..2];
      SpacesBehind(s[2..], y);
    } else {
      assert (s + y)[1..] == s[1..] + y && (s + y)[..2] == s[..2];
      SpacesBehind(s[1..], y);
    }
  }

  /** The tests of the loop, on a trimmed line, decide what they are for. */
  lemma LineTests(line: string)
    ensures var trimmed := TrimSpace(line);
            var upper, after := ToUpper(trimmed), TrimSpace(AfterDollars(trimmed));
            && (trimmed != "" && !HasPrefix(trimmed, "--") <==> Kept(line))
            && (Contains(upper, "CREATE OR REPLACE FUNCTION") || Contains(upper, "CREATE FUNCTION") <==> NamesFunction(line))
            && (Contains(trimmed, "$$") <==> HasMarker(line))
            && (HasSuffix(trimmed, ";") <==> EndsWithSemicolon(line))
            && (HasMarker(line) ==> (HasSuffix(after, ";") || after == "" <==> ClosesBody(line)))
  {
    hide TrimSpace, ToUpper, Contains, HasSuffix, HasPrefix, EndsWithSemicolon, HasMarker, NamesFunction, IsContent, AfterDollars;
    ContentTest(line);
    HeaderTest(line);
    MarkerTest(line);
    SemicolonTest(line);
    if HasMarker(line) {
      ClosingTest(line);
    }
  }

  lemma ClosingTest(line: string)
    requires Contains(TrimSpace(line), "$$")
    ensures var after := TrimSpace(AfterDollars(TrimSpace(line))); HasSuffix(after, ";") || after == "" <==> ClosesBody(line)
  {
    hide TrimSpace, Contains, HasSuffix, EndsWithSemicolon, AfterDollars;
    var t := TrimSpace(line);
    var x, y := TrimTakesSpaces(line);
    MarkersCount(t);
    SpacesBehind(t, y);
    SpacesBefore(x, t + y);
    assert x + (t + y) == line;
    SemicolonTest(AfterDollars(t));
    BlankIsAllSpace(AfterDollars(t));
    SpacesAfter(AfterDollars(t), y);
  }

  lemma MarkersCount(s: string)
    requires Contains(s, "$$")
    ensures Dollars(s) > 0
    decreases |s|
  {
    if HasPrefix(s, "$$") {
    } else {
      MarkersCount(s[1..]);
    }
  }

  lemma SpacesAfter(s: string, y: string)
    requires AllSpace(y)
    ensures EndsWithSemicolon(s + y) <==> EndsWithSemicolon(s)
    ensures AllSpace(s + y) <==> AllSpace(s)
  {
    if EndsWithSemicolon(s) {
      var u, v :| s == u + ";" + v && AllSpace(v);
      assert s + y == u + ";" + (v + y) && AllSpace(v + y);
    }
    if EndsWithSemicolon(s + y) {
      SemicolonBeforeSpaces(s, y);
    }
    if AllSpace(s + y) {
      assert forall i :: 0 <= i < |s| ==> s[i] == (s + y)[i];
    }
  }

  lemma SemicolonBeforeSpaces(s: string, y: string)
    requires AllSpace(y) && EndsWithSemicolon(s + y)
    ensures EndsWithSemicolon(s)
  {
    var u, v :| s + y == u + ";" + v && AllSpace(v);
    assert (s + y)[|u|] == ';';
    assert forall i :: 0 <= i < |y| ==> y[i] != ';';
    var v' := v[..|s| - |u| - 1];
    assert s == (s + y)[..|s|] == u + ";" + v';
    assert AllSpace(v') by {
      assert forall i :: 0 <= i < |v'| ==> v'[i] == v[i];
    }
  }

  // ---------------------------------------------------------------- functions

  /** The line has one marker, which opens or closes a body. */
  ghost predicate HasOneMarker(line: string) {
    exists x, y :: line == x + "$$" + y && '$' !in x && '$' !in y
  }

  lemma CountOneMarker(line: string)
    requires HasOneMarker(line)
    ensures Dollars(line) == 1
  {
    var x, y :| line == x + "$$" + y && '$' !in x && '$' !in y;
    assert x != "" ==> x[|x| - 1] in x;
    assert line == x + ("$$" + y);
    DollarsAppend(x, "$$" + y);
    OneMarker(y);
    NoDollars(x);
    NoDollars(y);
  }

  lemma RenderDollars(lines: seq<string>, line: string)
    ensures Dollars(Render(lines + [line])) == Dollars(Render(lines)) + Dollars(line)
  {
    var before := Render(lines);
    assert (lines + [line])[..|lines|] == lines;
    assert Render(lines + [line]) == before + (line + "\n");
    DollarsAppend(before, line + "\n");
    SpacesBehind(line, "\n");
  }

  /** One marker in line `k` and none in the others. */
  lemma {:induction false} DollarsOfLines(lines: seq<string>, k: nat)
    requires forall i :: 0 <= i < |lines| ==> if i == k then HasOneMarker(lines[i]) else '$' !in lines[i]
    ensures Dollars(Render(lines)) == if k < |lines| then 1 else 0
    decreases |lines|
  {
    if lines == [] {
    } else {
      var past, last := lines[..|lines| - 1], lines[|lines| - 1];
      DollarsOfLines(past, k);
      assert lines == past + [last];
      RenderDollars(past, last);
      if |past| == k {
        CountOneMarker(last);
      } else {
        NoDollars(last);
      }
    }
  }

  /** The line has one marker, and after it a semicolon at the end, or nothing. */
  ghost predicate IsClosing(line: string) {
    exists a, tail :: line == a + "$$" + tail && '$' !in a && '$' !in tail
                      && (AllSpace(tail) || EndsWithSemicolon(tail))
  }

  /** The form of a function in a migration: a header line naming a function in any case, lines of which line `k` opens
      the body, and a last line that closes it, with a semicolon or nothing after the marker and its language. */
  ghost predicate IsFunction(lines: seq<string>, k: nat) {
    && k < |lines| - 1
    && (exists a, w, b :: lines[0] == a + w + b
                          && (SameLetters(w, "CREATE OR REPLACE FUNCTION") || SameLetters(w, "CREATE FUNCTION")))
    && (forall i :: 0 <= i < |lines| - 1 ==> if i == k then HasOneMarker(lines[i]) else '$' !in lines[i])
    && IsClosing(lines[|lines| - 1])
  }

  lemma FunctionIsOpen(lines: seq<string>, k: nat, i: nat)
    requires IsFunction(lines, k) && 0 < i < |lines|
    ensures !Ends(lines[..i])
  {
    var head := lines[..i];
    assert head[0] == lines[0];
    assert NamesFunction(head[0]);
    DollarsOfLines(head, k);
  }

  lemma FunctionCloses(lines: seq<string>, k: nat)
    requires IsFunction(lines, k)
    ensures Ends(lines)
  {
    hide SameLetters, IsClosing, HasMarker, ClosesBody, Dollars;
    var past, last := lines[..|lines| - 1], lines[|lines| - 1];
    assert NamesFunction(lines[0]);
    assert lines == past + [last];
    DollarsOfLines(past, k);
    RenderDollars(past, last);
    ClosingCloses(last);
  }

  lemma ClosingCloses(line: string)
    requires IsClosing(line)
    ensures HasMarker(line) && Dollars(line) == 1 && ClosesBody(line)
  {
    var a, tail :| line == a + "$$" + tail && '$' !in a && '$' !in tail
                   && (AllSpace(tail) || EndsWithSemicolon(tail));
    LineCloses(a, tail);
  }

  lemma LineCloses(a: string, tail: string)
    requires '$' !in a && '$' !in tail && (AllSpace(tail) || EndsWithSemicolon(tail))
    ensures var line := a + "$$" + tail; HasMarker(line) && Dollars(line) == 1 && ClosesBody(line)
  {
    assert a != "" ==> a[|a| - 1] in a;
    CountOneMarker(a + "$$" + tail);
    AfterLastMarker(a, tail);
  }

  /** Such lines are one statement. */
  lemma FunctionIsStatement(lines: seq<string>, k: nat)
    requires IsFunction(lines, k)
    ensures IsStatement(lines)
  {
    hide IsFunction, Ends;
    assert lines != [] by {
      FunctionHasLines(lines, k);
    }
    FunctionCloses(lines, k);
    forall i | 0 < i < |lines|
      ensures !Ends(lines[..i])
    {
      FunctionIsOpen(lines, k, i);
    }
  }

  lemma FunctionHasLines(lines: seq<string>, k: nat)
    requires IsFunction(lines, k)
    ensures lines != []
  {
  }

  lemma {:induction false} FlattenAppend(a: seq<seq<string>>, b: seq<seq<string>>)
    ensures Flatten(a + b) == Flatten(a) + Flatten(b)
    decreases |b|
  {
    if b == [] {
      assert a + b == a;
    } else {
      assert (a + b)[..|a + b| - 1] == a + b[..|b| - 1];
      FlattenAppend(a, b[..|b| - 1]);
    }
  }

  /** Splits that leave no rest can be put one after the other. */
  lemma SplitsJoin(a: seq<string>, g: seq<seq<string>>, b: seq<string>, h: seq<seq<string>>, rest: seq<string>)
    requires IsSplit(a, g, []) && IsSplit(b, h, rest)
    ensures IsSplit(a + b, g + h, rest)
  {
    hide IsStatement, EndsNowhereBefore;
    FlattenAppend(g, h);
    assert Flatten(g) + [] == Flatten(g);
    assert Flatten(g) + Flatten(h) + rest == a + b;
  }

  /** Whatever statements stand before it and whatever lines follow, a function comes out whole, as one statement. */
  lemma FunctionsComeOutWhole(before: seq<string>, groups: seq<seq<string>>, lines: seq<string>, k: nat, after: seq<string>,
                              tail: seq<seq<string>>, rest: seq<string>, statements: seq<string>)
    requires IsSplit(before, groups, []) && IsFunction(lines, k) && IsSplit(after, tail, rest)
    requires SplitInto(before + lines + after, statements)
    ensures |groups| < |statements| && statements[|groups|] == Render(lines)
  {
    hide IsFunction, IsStatement, Ends;
    FunctionIsStatement(lines, k);
    assert IsSplit(lines, [lines], []) by {
      AloneIsSplit(lines);
    }
    SplitsJoin(before, groups, lines, [lines], []);
    SplitsJoin(before + lines, groups + [lines], after, tail, rest);
    var g, r :| IsSplit(before + lines + after, g, r) && statements == Statements(g, r);
    SplitIsUnique(before + lines + after, g, r, groups + [lines] + tail, rest);
    assert g[|groups|] == lines;
  }

  lemma AloneIsSplit(lines: seq<string>)
    requires IsStatement(lines)
    ensures IsSplit(lines, [lines], [])
  {
    hide Ends;
    assert [lines][..0] == [];
    assert Flatten([lines]) == [] + lines == lines;
  }

  /** Lines of which none names a function end a statement exactly at a semicolon. */
  lemma PlainLinesEndAtSemicolons(lines: seq<string>)
    requires lines != []
    requires forall i, a, w, b :: 0 <= i < |lines| && lines[i] == a + w + b ==>
               !SameLetters(w, "CREATE OR REPLACE FUNCTION") && !SameLetters(w, "CREATE FUNCTION")
    ensures Ends(lines) <==> exists x, y :: lines[|lines| - 1] == x + ";" + y && AllSpace(y)
  {
    hide SameLetters;
    assert !HasHeader(lines);
  }

  /** A function as the repository's migration writes it. */
  lemma MigrationFunction()
    ensures IsStatement(["CREATE OR REPLACE FUNCTION update_updated_at_column()", "RETURNS TRIGGER AS $$", "BEGIN",
                         "    NEW.updated_at = NOW();", "    RETURN NEW;", "END;", "$$ language 'plpgsql';"])
  {
    hide SameLetters, IsClosing, HasOneMarker, IsStatement;
    var header := "CREATE OR REPLACE FUNCTION update_updated_at_column()";
    var opening, closing := "RETURNS TRIGGER AS $$", "$$ language 'plpgsql';";
    var body := ["BEGIN", "    NEW.updated_at = NOW();", "    RETURN NEW;", "END;"];
    FourLines(body);
    BodyLines(header, opening, body, closing);
    assert [header, opening] + body + [closing]
        == [header, opening, "BEGIN", "    NEW.updated_at = NOW();", "    RETURN NEW;", "END;", closing];
  }

  lemma BodyLines(header: string, opening: string, body: seq<string>, closing: string)
    requires header == "CREATE OR REPLACE FUNCTION update_updated_at_column()"
    requires opening == "RETURNS TRIGGER AS $$" && closing == "$$ language 'plpgsql';"
    requires forall i :: 0 <= i < |body| ==> '$' !in body[i]
    ensures IsStatement([header, opening] + body + [closing])
  {
    hide SameLetters, IsClosing, HasOneMarker, IsStatement;
    var word, rest := HeaderText(header);
    OpeningText();
    ClosingText();
    FunctionOf(word, rest, opening, body, closing);
  }

  lemma HeaderText(header: string) returns (word: string, rest: string)
    requires header == "CREATE OR REPLACE FUNCTION update_updated_at_column()"
    ensures header == word + rest && SameLetters(word, "CREATE OR REPLACE FUNCTION") && '$' !in word && '$' !in rest
  {
    hide SameLetters;
    word, rest := "CREATE OR REPLACE FUNCTION", " update_updated_at_column()";
    SameLettersAsItself(word);
    assert word + rest == header;
  }

  lemma FourLines(body: seq<string>)
    requires body == ["BEGIN", "    NEW.updated_at = NOW();", "    RETURN NEW;", "END;"]
    ensures forall i :: 0 <= i < |body| ==> '$' !in body[i]
  {
    assert '$' !in body[0] && '$' !in body[1] && '$' !in body[2] && '$' !in body[3];
  }

  lemma OpeningText()
    ensures HasOneMarker("RETURNS TRIGGER AS $$")
  {
    hide HasOneMarker;
    OpeningLine("RETURNS TRIGGER AS ");
    assert "RETURNS TRIGGER AS " + "$$" == "RETURNS TRIGGER AS $$";
  }

  lemma ClosingText()
    ensures IsClosing("$$ language 'plpgsql';")
  {
    hide IsClosing;
    ClosingLine(" language 'plpgsql'");
    assert "$$" + " language 'plpgsql'" + ";" == "$$ language 'plpgsql';";
  }

  lemma FunctionOf(word: string, rest: string, opening: string, body: seq<string>, closing: string)
    requires SameLetters(word, "CREATE OR REPLACE FUNCTION") && '$' !in word && '$' !in rest
    requires HasOneMarker(opening) && IsClosing(closing) && forall i :: 0 <= i < |body| ==> '$' !in body[i]
    ensures IsStatement([word + rest, opening] + body + [closing])
  {
    hide SameLetters, IsClosing, HasOneMarker;
    var lines := [word + rest, opening] + body + [closing];
    assert lines[0] == "" + word + rest;
    FunctionIsStatement(lines, 1);
  }

  lemma OneMarkerBetween(x: string, y: string)
    requires '$' !in x && '$' !in y
    ensures HasOneMarker(x + "$$" + y)
  {
  }

  lemma OpeningLine(x: string)
    requires '$' !in x
    ensures HasOneMarker(x + "$$")
  {
    OneMarkerBetween(x, "");
    assert x + "$$" + "" == x + "$$";
  }

  lemma ClosesWith(a: string, x: string, y: string)
    requires '$' !in a && '$' !in x && '$' !in y && AllSpace(y)
    ensures IsClosing(a + "$$" + (x + ";" + y))
  {
    var tail := x + ";" + y;
    assert EndsWithSemicolon(tail);
    assert '$' !in tail;
  }

  lemma ClosingLine(x: string)
    requires '$' !in x
    ensures IsClosing("$$" + x + ";")
  {
    ClosesWith("", x, "");
    assert "" + "$$" + (x + ";" + "") == "$$" + x + ";";
  }

  lemma SameLettersAsItself(word: string)
    ensures SameLetters(word, word)
  {
  }

  // ---------------------------------------------------------------- the loop

  method SplitSqlStatements(sql: string) returns (statements: seq<string>)
    ensures SplitInto(KeptLines(Lines(sql)), statements)
    ensures Concat(statements) == Render(KeptLines(Lines(sql)))
    ensures forall i, k :: 0 <= i < |statements| - 1 && 0 <= k < |Lines(statements[i])| && NamesFunction(Lines(statements[i])[k])
              ==> Dollars(statements[i]) % 2 == 0
    ensures forall i :: 0 <= i < |statements| ==> IsExecutable(statements[i])
  {
    hide Lines, Kept, NamesFunction, HasMarker, EndsWithSemicolon, Dollars, AfterDollars, ClosesBody, ToUpper, TrimSpace,
         Contains, HasSuffix, HasPrefix, IsSplit, Concat, IsExecutable;
    statements := [];
    var current, inFunction := "", false;
    ghost var groups: seq<seq<string>>, rest: seq<string> := [], [];
    var lines := Lines(sql);
    NothingToSplit();
    for i := 0 to |lines|
      invariant IsSplit(KeptLines(lines[..i]), groups, rest)
      invariant statements == Rendered(groups)
      invariant current == Render(rest) && inFunction == HasHeader(rest)
    {
      var line := lines[i];
      assert lines[..i + 1][..i] == lines[..i];
      LineTests(line);
      var trimmed := TrimSpace(line);
      if trimmed == "" || HasPrefix(trimmed, "--") {
        assert KeptLines(lines[..i]) + [] == KeptLines(lines[..i]);
        continue;
      }
      ghost var open := rest + [line];
      Grow(KeptLines(lines[..i]), groups, rest, line);
      var upper := ToUpper(trimmed);
      if Contains(upper, "CREATE OR REPLACE FUNCTION") || Contains(upper, "CREATE FUNCTION") {
        inFunction := true;
      }
      current := current + line + "\n";
      if inFunction && Contains(trimmed, "$$") && Dollars(current) % 2 == 0 {
        var afterDollar := TrimSpace(AfterDollars(trimmed));
        if HasSuffix(afterDollar, ";") || afterDollar == "" {
          inFunction := false;
          statements, current := statements + [current], "";
        }
      } else if !inFunction && HasSuffix(trimmed, ";") {
        statements, current := statements + [current], "";
      }
      groups, rest := if Ends(open) then groups + [open] else groups, if Ends(open) then [] else open;
    }
    assert lines[..|lines|] == lines;
    if current != "" {
      statements := statements + [current];
    }
    RenderIsEmpty(rest);
    SplitIsSound(lines, groups, rest);
  }

  /** How the database takes part: whether the transaction begins, which statement it rejects after which others, whether
      it commits. */
  datatype Database = Database(begins: bool, rejects: (seq<string>, string) -> bool, commits: bool)

  function Trimmed(statements: seq<string>): (trimmed: seq<string>)
    ensures |trimmed| == |statements|
  {
    seq(|statements|, i requires 0 <= i < |statements| => TrimSpace(statements[i]))
  }

  /** `RunMigrations`: one transaction over every statement, trimmed and in order. Everything is committed, or nothing and
      the caller is told. */
  method RunMigrations(sql: string, db: Database) returns (ok: bool, committed: seq<string>)
    ensures exists statements ::
              && SplitInto(KeptLines(Lines(sql)), statements)
              && var all := Trimmed(statements);
              && (ok <==> && db.begins && db.commits
                          && forall i :: 0 <= i < |all| ==> !db.rejects(all[..i], all[i]))
              && (ok ==> committed == all)
    ensures !ok ==> committed == []
  {
    hide IsSplit, Lines, KeptLines, Statements, TrimSpace, SplitInto, HasHeader, Dollars, Concat, Render;
    var statements := SplitSqlStatements(sql);
    ghost var all := Trimmed(statements);
    if !db.begins {
      return false, [];
    }
    var executed: seq<string> := [];
    for i := 0 to |statements|
      invariant executed == all[..i]
      invariant forall k :: 0 <= k < i ==> !db.rejects(all[..k], all[k])
    {
      var stmt := TrimSpace(statements[i]);
      assert IsExecutable(statements[i]);
      if stmt == "" {
        continue;
      }
      if HasPrefix(stmt, "--") {
        continue;
      }
      if db.rejects(executed, stmt) {
        return false, [];
      }
      executed := executed + [stmt];
      assert all[..i + 1] == all[..i] + [all[i]];
    }
    if !db.commits {
      return false, [];
    }
    return true, executed;
  }
}
