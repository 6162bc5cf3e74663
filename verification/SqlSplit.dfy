/** Splitting a SQL script into statements line by line, with dollar quotes.

    The splitter decides per line whether a dollar quote is open.  Beside it stands
    a lexer that reads the line character by character, as sections 4.1.2.4 and 4.1.5 of
    the PostgreSQL manual describe dollar-quoted strings and comments. */
module SqlSplit {
  import opened TextLines

  datatype Quote = Outside | Inside(tag: string)

  // ----- Dollar tags in a line

  predicate IsTagChar(c: char) {
    'a' <= c <= 'z' || 'A' <= c <= 'Z' || c == '_'
  }

  /** The end of the run of tag characters that starts at `i`. */
  function RunEnd(line: string, i: nat): (e: nat)
    requires i <= |line|
    ensures i <= e <= |line|
    ensures forall k :: i <= k < e ==> IsTagChar(line[k])
    ensures e < |line| ==> !IsTagChar(line[e])
    decreases |line| - i
  {
    if i < |line| && IsTagChar(line[i]) then RunEnd(line, i + 1) else i
  }

  predicate IsTag(tag: string) {
    && |tag| >= 2 && tag[0] == '$' && tag[|tag| - 1] == '$'
    && forall k :: 0 < k < |tag| - 1 ==> IsTagChar(tag[k])
  }

  predicate OccursAt(line: string, tag: string, i: nat) {
    i + |tag| <= |line| && line[i..i + |tag|] == tag
  }

  predicate TagAt(line: string, i: nat)
    requires i < |line|
  {
    line[i] == '$' && (var e := RunEnd(line, i + 1); e < |line| && line[e] == '$')
  }

  /** The match of the pattern `\$[a-zA-Z_]*\$` that starts at `i`. */
  function TagFrom(line: string, i: nat): (tag: string)
    requires i < |line| && TagAt(line, i)
    ensures IsTag(tag) && OccursAt(line, tag, i)
  {
    line[i..RunEnd(line, i + 1) + 1]
  }

  lemma TagIsMatch(line: string, tag: string, i: nat)
    requires IsTag(tag) && i < |line| && OccursAt(line, tag, i)
    ensures TagAt(line, i) && TagFrom(line, i) == tag
  {
    forall k | i < k < i + |tag| - 1 ensures IsTagChar(line[k]) {
      assert line[k] == tag[k - i];
    }
    assert line[i] == tag[0] && line[i + |tag| - 1] == tag[|tag| - 1];
    assert RunEnd(line, i + 1) == i + |tag| - 1;
  }

  /** `re.search`: where the leftmost match at or after `i` starts, or the line's end. */
  function FirstTag(line: string, i: nat): (p: nat)
    requires i <= |line|
    ensures i <= p <= |line|
    ensures p < |line| ==> TagAt(line, p)
    ensures forall k :: i <= k < p ==> !TagAt(line, k)
    decreases |line| - i
  {
    if i == |line| || TagAt(line, i) then i else FirstTag(line, i + 1)
  }

  /** `str.count` from position `i` on: occurrences that do not overlap. */
  function Count(line: string, tag: string, i: nat): nat
    requires tag != "" && i <= |line|
    decreases |line| - i
  {
    if i == |line| then 0
    else if OccursAt(line, tag, i) then 1 + Count(line, tag, i + |tag|)
    else Count(line, tag, i + 1)
  }

  // ----- The splitter's view of a line, and the lexer's

  predicate WellTagged(q: Quote) {
    q.Inside? ==> IsTag(q.tag)
  }

  /** The splitter's quote state after a line: the first tag of the line decides, or
      the tag that is open, by the parity of its occurrences. */
  function AfterLine(q: Quote, line: string): (after: Quote)
    requires WellTagged(q)
    ensures WellTagged(after)
  {
    match q
    case Outside =>
      var p := FirstTag(line, 0);
      if p < |line| && Count(line, TagFrom(line, p), 0) % 2 == 1 then Inside(TagFrom(line, p)) else Outside
    case Inside(tag) =>
      if Count(line, tag, 0) % 2 == 1 then Outside else q
  }

  predicate CommentAt(line: string, i: nat) {
    i + 2 <= |line| && line[i] == '-' && line[i + 1] == '-'
  }

  /** The lexer: outside a quote the next tag opens one, unless a comment comes first, and
      inside only the same tag closes it. */
  function Lex(q: Quote, line: string, i: nat): (after: Quote)
    requires WellTagged(q) && i <= |line|
    ensures WellTagged(after)
    decreases |line| - i
  {
    if i == |line| then q
    else
      match q
      case Outside =>
        if CommentAt(line, i) then Outside
        else if TagAt(line, i) then Lex(Inside(TagFrom(line, i)), line, i + |TagFrom(line, i)|)
        else Lex(Outside, line, i + 1)
      case Inside(tag) =>
        if OccursAt(line, tag, i) then Lex(Outside, line, i + |tag|) else Lex(q, line, i + 1)
  }

  /** How many times the lexer opens or closes a quote with this tag from position `i` on. */
  function Delims(q: Quote, line: string, i: nat, tag: string): nat
    requires WellTagged(q) && i <= |line|
    decreases |line| - i
  {
    if i == |line| then 0
    else
      match q
      case Outside =>
        if CommentAt(line, i) then 0
        else if TagAt(line, i) then
          var open := TagFrom(line, i);
          (if open == tag then 1 else 0) + Delims(Inside(open), line, i + |open|, tag)
        else Delims(Outside, line, i + 1, tag)
      case Inside(open) =>
        if OccursAt(line, open, i) then (if open == tag then 1 else 0) + Delims(Outside, line, i + |open|, tag)
        else Delims(q, line, i + 1, tag)
  }

  function Opened(q: Quote, tag: string): nat {
    if q == Inside(tag) then 1 else 0
  }

  /** The lexer ends inside a quote exactly when its tag was met an odd number of times,
      the one before the line included. */
  lemma {:induction false} LexParity(q: Quote, line: string, i: nat, tag: string)
    requires WellTagged(q) && i <= |line|
    ensures Lex(q, line, i) == Inside(tag) <==> (Opened(q, tag) + Delims(q, line, i, tag)) % 2 == 1
    decreases |line| - i, 1
  {
    if i < |line| {
      if q == Outside {
        ParityOutside(line, i, tag);
      } else if OccursAt(line, q.tag, i) {
        LexParity(Outside, line, i + |q.tag|, tag);
      } else {
        LexParity(q, line, i + 1, tag);
      }
    }
  }

  lemma {:induction false} ParityOutside(line: string, i: nat, tag: string)
    requires i < |line|
    ensures Lex(Outside, line, i) == Inside(tag) <==> Delims(Outside, line, i, tag) % 2 == 1
    decreases |line| - i, 0
  {
    if !CommentAt(line, i) {
      if TagAt(line, i) {
        LexParity(Inside(TagFrom(line, i)), line, i + |TagFrom(line, i)|, tag);
      } else {
        LexParity(Outside, line, i + 1, tag);
      }
    }
  }

  /** Every other tag delimits an even number of times, and an even number of this one's
      occurrences delimit nothing: they are in comments or in quotes with other tags. */
  ghost predicate EvenButFor(q: Quote, line: string, tag: string)
    requires WellTagged(q) && IsTag(tag)
  {
    && Count(line, tag, 0) % 2 == Delims(q, line, 0, tag) % 2
    && forall t :: IsTag(t) && t != tag ==> Delims(q, line, 0, t) % 2 == 0
  }

  /** Counting one tag is enough: the open one, or the first on the line. */
  ghost predicate CountingIsEnough(q: Quote, line: string)
    requires WellTagged(q)
  {
    match q
    case Outside => var p := FirstTag(line, 0); p < |line| ==> EvenButFor(q, line, TagFrom(line, p))
    case Inside(tag) => EvenButFor(q, line, tag)
  }

  lemma CountedIffEven(q: Quote, line: string, tag: string)
    requires IsTag(tag) && (q == Outside || q == Inside(tag))
    ensures Toggled(q, tag, Count(line, tag, 0)) == Lex(q, line, 0) <==> EvenButFor(q, line, tag)
  {
    LexParity(q, line, 0, tag);
    var after := Lex(q, line, 0);
    if after.Inside? {
      LexParity(q, line, 0, after.tag);
    }
    forall t | IsTag(t) && t != tag
      ensures Delims(q, line, 0, t) % 2 == 1 <==> after == Inside(t)
    {
      LexParity(q, line, 0, t);
    }
  }

  /** For every line and every number of tags: the parity rule is right exactly when
      counting one tag is enough. */
  lemma SplitterAgreesIff(q: Quote, line: string)
    requires WellTagged(q)
    ensures AfterLine(q, line) == Lex(q, line, 0) <==> CountingIsEnough(q, line)
  {
    match q {
      case Outside =>
        var p := FirstTag(line, 0);
        if p < |line| {
          CountedIffEven(q, line, TagFrom(line, p));
        } else {
          LexWithoutTag(line, 0);
        }
      case Inside(tag) =>
        CountedIffEven(q, line, tag);
    }
  }

  /** From position `i` on, every quote that is or becomes open has this tag, and no
      comment contains it. */
  predicate OnlyTag(q: Quote, line: string, i: nat, tag: string)
    requires WellTagged(q) && tag != "" && i <= |line|
    decreases |line| - i
  {
    if i == |line| then true
    else
      match q
      case Outside =>
        if CommentAt(line, i) then Count(line, tag, i) == 0
        else if TagAt(line, i) then
          TagFrom(line, i) == tag && OnlyTag(Inside(tag), line, i + |tag|, tag)
        else OnlyTag(Outside, line, i + 1, tag)
      case Inside(open) =>
        open == tag &&
        if OccursAt(line, tag, i) then OnlyTag(Outside, line, i + |tag|, tag) else OnlyTag(q, line, i + 1, tag)
  }

  /** No two different tags delimit quotes on the line. */
  predicate OneTagPerLine(q: Quote, line: string)
    requires WellTagged(q)
  {
    match q
    case Outside => var p := FirstTag(line, 0); p < |line| ==> OnlyTag(Outside, line, 0, TagFrom(line, p))
    case Inside(tag) => OnlyTag(q, line, 0, tag)
  }

  function Toggled(q: Quote, tag: string, n: nat): Quote {
    if n % 2 == 0 then q else if q == Outside then Inside(tag) else Outside
  }

  lemma LexAtTag(q: Quote, line: string, i: nat, tag: string) returns (flipped: Quote)
    requires IsTag(tag) && (q == Outside || q == Inside(tag)) && i < |line| && OnlyTag(q, line, i, tag) &&
             OccursAt(line, tag, i)
    ensures flipped == if q == Outside then Inside(tag) else Outside
    ensures OnlyTag(flipped, line, i + |tag|, tag) && Lex(q, line, i) == Lex(flipped, line, i + |tag|)
  {
    TagIsMatch(line, tag, i);
    flipped := if q == Outside then Inside(tag) else Outside;
  }

  lemma LexPastChar(q: Quote, line: string, i: nat, tag: string)
    requires IsTag(tag) && (q == Outside || q == Inside(tag)) && i < |line| && OnlyTag(q, line, i, tag) &&
             !OccursAt(line, tag, i) && (q == Outside ==> !CommentAt(line, i))
    ensures OnlyTag(q, line, i + 1, tag) && Lex(q, line, i) == Lex(q, line, i + 1)
  {
  }

  lemma {:induction false} LexCounts(q: Quote, line: string, i: nat, tag: string)
    requires IsTag(tag) && (q == Outside || q == Inside(tag)) && i <= |line| && OnlyTag(q, line, i, tag)
    ensures Lex(q, line, i) == Toggled(q, tag, Count(line, tag, i))
    decreases |line| - i
  {
    if i < |line| {
      if q == Outside && CommentAt(line, i) {
        assert Count(line, tag, i) == 0;
      } else if OccursAt(line, tag, i) {
        var flipped := LexAtTag(q, line, i, tag);
        LexCounts(flipped, line, i + |tag|, tag);
        assert Count(line, tag, i) == 1 + Count(line, tag, i + |tag|);
      } else {
        LexPastChar(q, line, i, tag);
        LexCounts(q, line, i + 1, tag);
      }
    }
  }

  lemma {:induction false} LexWithoutTag(line: string, i: nat)
    requires i <= |line| && FirstTag(line, i) == |line|
    ensures Lex(Outside, line, i) == Outside
    decreases |line| - i
  {
    if i < |line| {
      LexWithoutTag(line, i + 1);
    }
  }

  /** On a line whose quotes all have one tag the parity rule is right. */
  lemma SplitterAgreesWithLexer(q: Quote, line: string)
    requires WellTagged(q) && OneTagPerLine(q, line)
    ensures AfterLine(q, line) == Lex(q, line, 0)
  {
    match q {
      case Outside =>
        var p := FirstTag(line, 0);
        if p < |line| {
          LexCounts(q, line, 0, TagFrom(line, p));
        } else {
          LexWithoutTag(line, 0);
        }
      case Inside(tag) =>
        LexCounts(q, line, 0, tag);
    }
  }

  /** With two tags on one line it can be wrong: a quote that is opened behind a
      complete one goes unnoticed. */
  lemma TwoTagsMisread()
    ensures AfterLine(Outside, "$a$$a$$b$") == Outside && Lex(Outside, "$a$$a$$b$", 0) == Inside("$b$")
  {
    var line := "$a$$a$$b$";
    assert RunEnd(line, 1) == 2 && TagFrom(line, 0) == "$a$";
    assert RunEnd(line, 7) == 8 && TagFrom(line, 6) == "$b$";
    assert Lex(Inside("$b$"), line, 9) == Inside("$b$");
    assert Lex(Outside, line, 6) == Inside("$b$");
    assert Lex(Inside("$a$"), line, 3) == Inside("$b$");
    assert Count(line, "$a$", 9) == 0 && Count(line, "$a$", 8) == 0;
    assert Count(line, "$a$", 7) == 0 && Count(line, "$a$", 6) == 0;
    assert Count(line, "$a$", 3) == 1;
    assert FirstTag(line, 0) == 0;
  }

  // ----- Splitting

  predicate IsJunk(line: string) {
    Strip(line) == "" || "--" <= Strip(line)
  }

  /** The splitter between two lines: finished statements, the lines of the one that
      is being collected, and whether a quote is open. */
  datatype Scanner = Scanner(finished: seq<seq<string>>, current: seq<string>, quote: Quote)

  /** One more line of a statement, with the quote that is open behind it. */
  function Taken(sc: Scanner, line: string, q: Quote): Scanner {
    var current := sc.current + [line];
    if q == Outside && EndsWith(Strip(line), ';') then Scanner(sc.finished + [current], [], q)
    else Scanner(sc.finished, current, q)
  }

  function Feed(sc: Scanner, line: string): (next: Scanner)
    requires WellTagged(sc.quote)
    ensures WellTagged(next.quote)
  {
    if sc.current == [] && IsJunk(line) then sc else Taken(sc, line, AfterLine(sc.quote, line))
  }

  function Scan(lines: seq<string>): (sc: Scanner)
    ensures WellTagged(sc.quote)
  {
    if lines == [] then Scanner([], [], Outside)
    else Feed(Scan(lines[..|lines| - 1]), lines[|lines| - 1])
  }

  /** The splitter's quote state after some lines of a statement. */
  function QuoteAfter(lines: seq<string>): (q: Quote)
    ensures WellTagged(q)
  {
    if lines == [] then Outside else AfterLine(QuoteAfter(lines[..|lines| - 1]), lines[|lines| - 1])
  }

  /** The lexer's quote state after some lines of a statement. */
  function LexLines(lines: seq<string>): (q: Quote)
    ensures WellTagged(q)
  {
    if lines == [] then Outside else Lex(LexLines(lines[..|lines| - 1]), lines[|lines| - 1], 0)
  }

  predicate ClosedBySemicolon(q: Quote, line: string) {
    q == Outside && EndsWith(Strip(line), ';')
  }

  /** The lines of a statement in progress: it starts with a line of its own and no
      line so far has ended it. */
  predicate Partial(lines: seq<string>) {
    if lines == [] then true
    else
      var init, last := lines[..|lines| - 1], lines[|lines| - 1];
      Partial(init) && (init == [] ==> !IsJunk(last)) && !ClosedBySemicolon(QuoteAfter(lines), last)
  }

  /** One statement: outside its quotes a `;` ends a line only at the very end. */
  predicate IsStatement(lines: seq<string>) {
    lines != [] &&
    var init, last := lines[..|lines| - 1], lines[|lines| - 1];
    Partial(init) && (init == [] ==> !IsJunk(last)) && ClosedBySemicolon(QuoteAfter(lines), last)
  }

  /** `lines` are these statements, in order, with blank and comment lines between. */
  predicate Printed(lines: seq<string>, statements: seq<seq<string>>) {
    if lines == [] then statements == []
    else
      || (IsJunk(lines[|lines| - 1]) && Printed(lines[..|lines| - 1], statements))
      || (statements != [] && var last := statements[|statements| - 1];
          0 < |last| <= |lines| && lines[|lines| - |last|..] == last &&
          Printed(lines[..|lines| - |last|], statements[..|statements| - 1]))
  }

  lemma PrintedThenJunk(lines: seq<string>, statements: seq<seq<string>>, line: string)
    requires Printed(lines, statements) && IsJunk(line)
    ensures Printed(lines + [line], statements)
  {
    assert (lines + [line])[..|lines + [line]| - 1] == lines;
  }

  lemma PrintedThenStatement(lines: seq<string>, statements: seq<seq<string>>, g: seq<string>)
    requires Printed(lines, statements) && g != []
    ensures Printed(lines + g, statements + [g])
  {
    var all, ss := lines + g, statements + [g];
    assert all[|all| - |g|..] == g && all[..|all| - |g|] == lines && ss[..|ss| - 1] == statements;
  }

  lemma JunkBelow(a: seq<string>, b: seq<string>, statements: seq<seq<string>>)
    requires b != [] && IsJunk(b[|b| - 1]) && Printed(a + b[..|b| - 1], statements)
    ensures Printed(a + b, statements)
  {
    assert a + b[..|b| - 1] + [b[|b| - 1]] == a + b;
    PrintedThenJunk(a + b[..|b| - 1], statements, b[|b| - 1]);
  }

  lemma StatementBelow(a: seq<string>, ss: seq<seq<string>>, before: seq<string>, init: seq<seq<string>>,
                       g: seq<string>)
    requires g != [] && Printed(a + before, ss + init)
    ensures Printed(a + (before + g), ss + (init + [g]))
  {
    assert a + before + g == a + (before + g) && ss + init + [g] == ss + (init + [g]);
    PrintedThenStatement(a + before, ss + init, g);
  }

  /** Printings can be put one below the other. */
  lemma {:induction false} PrintedConcat(a: seq<string>, ss: seq<seq<string>>, b: seq<string>, ts: seq<seq<string>>)
    requires Printed(a, ss) && Printed(b, ts)
    ensures Printed(a + b, ss + ts)
    decreases |b|
  {
    if b == [] {
      assert a + b == a && ss + ts == ss;
      return;
    }
    var n := |b| - 1;
    if IsJunk(b[n]) && Printed(b[..n], ts) {
      PrintedConcat(a, ss, b[..n], ts);
      JunkBelow(a, b, ss + ts);
      return;
    }
    var init, last := ts[..|ts| - 1], ts[|ts| - 1];
    var before := b[..|b| - |last|];
    assert before + last == b && init + [last] == ts;
    PrintedConcat(a, ss, before, init);
    StatementBelow(a, ss, before, init, last);
  }

  lemma ScanMore(lines: seq<string>, line: string)
    ensures Scan(lines + [line]) == Feed(Scan(lines), line)
  {
    assert (lines + [line])[..|lines + [line]| - 1] == lines;
  }

  lemma FeedInside(finished: seq<seq<string>>, lines: seq<string>)
    requires lines != [] && Partial(lines)
    ensures var init := lines[..|lines| - 1];
            Feed(Scanner(finished, init, QuoteAfter(init)), lines[|lines| - 1]) ==
            Scanner(finished, lines, QuoteAfter(lines))
  {
    assert lines[..|lines| - 1] + [lines[|lines| - 1]] == lines;
  }

  lemma {:induction false} FeedPartial(before: seq<string>, finished: seq<seq<string>>, lines: seq<string>)
    requires Scan(before) == Scanner(finished, [], Outside) && Partial(lines)
    ensures Scan(before + lines) == Scanner(finished, lines, QuoteAfter(lines))
  {
    if lines == [] {
      assert before + lines == before;
    } else {
      var init, last := lines[..|lines| - 1], lines[|lines| - 1];
      assert before + init + [last] == before + lines;
      assert Partial(init);
      FeedPartial(before, finished, init);
      ScanMore(before + init, last);
      FeedInside(finished, lines);
    }
  }

  lemma FeedLast(finished: seq<seq<string>>, lines: seq<string>)
    requires IsStatement(lines)
    ensures var init := lines[..|lines| - 1];
            Feed(Scanner(finished, init, QuoteAfter(init)), lines[|lines| - 1]) ==
            Scanner(finished + [lines], [], Outside)
  {
    assert lines[..|lines| - 1] + [lines[|lines| - 1]] == lines;
  }

  lemma FeedStatement(before: seq<string>, finished: seq<seq<string>>, lines: seq<string>)
    requires Scan(before) == Scanner(finished, [], Outside) && IsStatement(lines)
    ensures Scan(before + lines) == Scanner(finished + [lines], [], Outside)
  {
    var init, last := lines[..|lines| - 1], lines[|lines| - 1];
    assert before + init + [last] == before + lines;
    assert Partial(init);
    FeedPartial(before, finished, init);
    ScanMore(before + init, last);
    FeedLast(finished, lines);
  }

  lemma FeedJunk(before: seq<string>, line: string)
    requires Scan(before).current == [] && IsJunk(line)
    ensures Scan(before + [line]) == Scan(before)
  {
    ScanMore(before, line);
  }

  /** The splitter undoes the printer. */
  lemma {:induction false} SplitsWhatIsPrinted(lines: seq<string>, statements: seq<seq<string>>)
    requires Printed(lines, statements) && forall g :: g in statements ==> IsStatement(g)
    ensures Scan(lines) == Scanner(statements, [], Outside)
    decreases |lines|
  {
    if lines == [] {
      return;
    }
    var n := |lines| - 1;
    if IsJunk(lines[n]) && Printed(lines[..n], statements) {
      SplitsWhatIsPrinted(lines[..n], statements);
      FeedJunk(lines[..n], lines[n]);
      assert lines[..n] + [lines[n]] == lines;
      return;
    }
    var m := |statements| - 1;
    var init, last := statements[..m], statements[m];
    var before := lines[..|lines| - |last|];
    assert Printed(before, init) && before + last == lines && init + [last] == statements;
    SplitsWhatIsPrinted(before, init);
    FeedStatement(before, init, last);
  }

  /** `lines` read as the finished statements, with blank and comment lines between,
      followed by the statement in progress. */
  ghost predicate Reads(before: seq<string>, lines: seq<string>, sc: Scanner) {
    && lines == before + sc.current
    && Printed(before, sc.finished)
    && Partial(sc.current)
    && sc.quote == QuoteAfter(sc.current)
    && forall g :: g in sc.finished ==> IsStatement(g)
  }

  lemma JunkReads(before: seq<string>, lines: seq<string>, sc: Scanner, line: string)
    requires Reads(before, lines, sc) && sc.current == [] && IsJunk(line)
    ensures Reads(lines + [line], lines + [line], sc)
  {
    assert lines == before && lines + [line] + [] == lines + [line];
    PrintedThenJunk(before, sc.finished, line);
  }

  lemma ClosedReads(before: seq<string>, lines: seq<string>, sc: Scanner, line: string)
    requires Reads(before, lines, sc) && (sc.current == [] ==> !IsJunk(line))
    requires ClosedBySemicolon(AfterLine(sc.quote, line), line)
    ensures Reads(lines + [line], lines + [line], Scanner(sc.finished + [sc.current + [line]], [], Outside))
  {
    var grown := sc.current + [line];
    assert grown[..|grown| - 1] == sc.current;
    assert lines + [line] == before + grown && lines + [line] + [] == lines + [line];
    PrintedThenStatement(before, sc.finished, grown);
  }

  lemma OpenReads(before: seq<string>, lines: seq<string>, sc: Scanner, line: string)
    requires Reads(before, lines, sc) && (sc.current == [] ==> !IsJunk(line))
    requires !ClosedBySemicolon(AfterLine(sc.quote, line), line)
    ensures Reads(before, lines + [line], Scanner(sc.finished, sc.current + [line], AfterLine(sc.quote, line)))
  {
    var grown := sc.current + [line];
    assert grown[..|grown| - 1] == sc.current;
    assert lines + [line] == before + grown;
  }

  lemma FeedReads(before: seq<string>, lines: seq<string>, sc: Scanner, line: string) returns (after: seq<string>)
    requires Reads(before, lines, sc)
    ensures Reads(after, lines + [line], Feed(sc, line))
  {
    if sc.current == [] && IsJunk(line) {
      after := lines + [line];
      JunkReads(before, lines, sc, line);
    } else if ClosedBySemicolon(AfterLine(sc.quote, line), line) {
      after := lines + [line];
      ClosedReads(before, lines, sc, line);
    } else {
      after := before;
      OpenReads(before, lines, sc, line);
    }
  }

  /** Whatever the input is, it reads as what the splitter makes of it. */
  lemma {:induction false} ScanReads(lines: seq<string>) returns (before: seq<string>)
    ensures Reads(before, lines, Scan(lines))
  {
    if lines == [] {
      before := [];
    } else {
      var init, last := lines[..|lines| - 1], lines[|lines| - 1];
      assert init + [last] == lines;
      before := ScanReads(init);
      before := FeedReads(before, init, Scan(init), last);
    }
  }

  /** The input splits into these statements with nothing left over if and only if it
      is a printing of them: there is exactly one way to read a script. */
  lemma SplitIffPrinted(lines: seq<string>, statements: seq<seq<string>>)
    ensures Scan(lines).finished == statements && Scan(lines).current == [] <==>
            Printed(lines, statements) && forall g :: g in statements ==> IsStatement(g)
  {
    if Printed(lines, statements) && forall g :: g in statements ==> IsStatement(g) {
      SplitsWhatIsPrinted(lines, statements);
    }
    var before := ScanReads(lines);
    if Scan(lines).finished == statements && Scan(lines).current == [] {
      assert before == lines;
    }
  }

  // ----- Against the lexer

  /** On each line counting one tag is enough. */
  ghost predicate CountingIsEnoughOnEach(lines: seq<string>) {
    lines != [] ==>
      && CountingIsEnoughOnEach(lines[..|lines| - 1])
      && CountingIsEnough(LexLines(lines[..|lines| - 1]), lines[|lines| - 1])
  }

  /** From line to line the splitter has the lexer's quote. */
  ghost predicate LexedAlike(lines: seq<string>) {
    forall k :: 0 <= k <= |lines| ==> QuoteAfter(lines[..k]) == LexLines(lines[..k])
  }

  lemma LexedAlikeGrows(init: seq<string>, line: string)
    ensures LexedAlike(init + [line]) <==>
            LexedAlike(init) && QuoteAfter(init + [line]) == LexLines(init + [line])
  {
    var lines := init + [line];
    assert lines[..|lines|] == lines && forall k :: 0 <= k <= |init| ==> lines[..k] == init[..k];
  }

  lemma {:induction false} QuotesAreLexedIff(lines: seq<string>)
    ensures LexedAlike(lines) <==> CountingIsEnoughOnEach(lines)
  {
    if lines == [] {
      assert forall k :: 0 <= k <= |lines| ==> lines[..k] == [];
    } else {
      var init, last := lines[..|lines| - 1], lines[|lines| - 1];
      QuotesAreLexedIff(init);
      assert init + [last] == lines && init[..|init|] == init;
      LexedAlikeGrows(init, last);
      if LexedAlike(init) {
        assert QuoteAfter(init) == LexLines(init);
        SplitterAgreesIff(LexLines(init), last);
      }
    }
  }

  lemma {:induction false} PartialPrefix(lines: seq<string>, k: nat)
    requires 0 < k <= |lines| && Partial(lines)
    ensures !ClosedBySemicolon(QuoteAfter(lines[..k]), lines[k - 1])
  {
    if k == |lines| {
      assert lines[..k] == lines;
    } else {
      var init := lines[..|lines| - 1];
      PartialPrefix(init, k);
      assert init[..k] == lines[..k];
    }
  }

  /** Whatever the input is: a statement ends where the lexer is outside every quote,
      and at the first line for which that is so and a `;` comes last. */
  lemma SplitsOutsideQuotes(lines: seq<string>, g: seq<string>, k: nat)
    requires g in Scan(lines).finished && CountingIsEnoughOnEach(g) && 0 < k <= |g|
    ensures ClosedBySemicolon(LexLines(g[..k]), g[k - 1]) <==> k == |g|
  {
    var before := ScanReads(lines);
    assert IsStatement(g);
    QuotesAreLexedIff(g);
    if k == |g| {
      assert g[..k] == g;
    } else {
      var init := g[..|g| - 1];
      PartialPrefix(init, k);
      assert init[..k] == g[..k];
    }
  }

  // ----- Against a splitter that uses the lexer

  function LexFeed(sc: Scanner, line: string): (next: Scanner)
    requires WellTagged(sc.quote)
    ensures WellTagged(next.quote)
  {
    if sc.current == [] && IsJunk(line) then sc else Taken(sc, line, Lex(sc.quote, line, 0))
  }

  /** What the splitter should do: the same, with the lexer's quotes. */
  function LexScan(lines: seq<string>): (sc: Scanner)
    ensures WellTagged(sc.quote)
  {
    if lines == [] then Scanner([], [], Outside)
    else LexFeed(LexScan(lines[..|lines| - 1]), lines[|lines| - 1])
  }

  predicate SameSplits(a: Scanner, b: Scanner) {
    a.finished == b.finished && a.current == b.current
  }

  /** How many times the lexer opens or closes a quote with this tag within a statement. */
  function DelimsOf(lines: seq<string>, tag: string): nat {
    if lines == [] then 0
    else
      var init, last := lines[..|lines| - 1], lines[|lines| - 1];
      DelimsOf(init, tag) + Delims(LexLines(init), last, 0, tag)
  }

  ghost predicate EvenlyDelimited(lines: seq<string>) {
    forall tag :: IsTag(tag) ==> DelimsOf(lines, tag) % 2 == 0
  }

  lemma {:induction false} LexLinesParity(lines: seq<string>, tag: string)
    ensures LexLines(lines) == Inside(tag) <==> DelimsOf(lines, tag) % 2 == 1
  {
    if lines != [] {
      var init, last := lines[..|lines| - 1], lines[|lines| - 1];
      LexLinesParity(init, tag);
      LexParity(LexLines(init), last, 0, tag);
    }
  }

  /** A statement is outside every quote exactly when each tag delimits an even number of
      times in it. */
  lemma OutsideIffEven(lines: seq<string>)
    ensures LexLines(lines) == Outside <==> EvenlyDelimited(lines)
  {
    if LexLines(lines) == Outside {
      forall tag | IsTag(tag) ensures DelimsOf(lines, tag) % 2 == 0 { LexLinesParity(lines, tag); }
    } else {
      LexLinesParity(lines, LexLines(lines).tag);
    }
  }

  /** The splitter has counted its quote shut behind this line exactly when all quotes of
      the statement are; it matters only where the line ends with a semicolon. */
  ghost predicate CutsRight(sc: Scanner, line: string) {
    !(sc.current == [] && IsJunk(line)) && EndsWith(Strip(line), ';') ==>
      (QuoteAfter(sc.current + [line]) == Outside <==> EvenlyDelimited(sc.current + [line]))
  }

  lemma QuotesGrow(lines: seq<string>, line: string)
    ensures QuoteAfter(lines + [line]) == AfterLine(QuoteAfter(lines), line)
    ensures LexLines(lines + [line]) == Lex(LexLines(lines), line, 0)
  {
    assert (lines + [line])[..|lines|] == lines;
  }

  lemma FeedHasQuote(sc: Scanner, line: string)
    requires WellTagged(sc.quote)
    ensures sc.quote == QuoteAfter(sc.current) ==> Feed(sc, line).quote == QuoteAfter(Feed(sc, line).current)
    ensures sc.quote == LexLines(sc.current) ==> LexFeed(sc, line).quote == LexLines(LexFeed(sc, line).current)
  {
    QuotesGrow(sc.current, line);
  }

  lemma {:induction false} ScanHasQuote(lines: seq<string>)
    ensures Scan(lines).quote == QuoteAfter(Scan(lines).current)
    ensures LexScan(lines).quote == LexLines(LexScan(lines).current)
  {
    if lines != [] {
      var init, last := lines[..|lines| - 1], lines[|lines| - 1];
      ScanHasQuote(init);
      FeedHasQuote(Scan(init), last);
      FeedHasQuote(LexScan(init), last);
    }
  }

  /** The two have split alike so far, each with its own quote. */
  predicate InStep(a: Scanner, b: Scanner) {
    SameSplits(a, b) && a.quote == QuoteAfter(a.current) && b.quote == LexLines(b.current)
  }

  /** They go on so exactly if the next cut is right. */
  lemma NextCut(a: Scanner, b: Scanner, line: string)
    requires InStep(a, b)
    ensures SameSplits(Feed(a, line), LexFeed(b, line)) <==> CutsRight(a, line)
  {
    QuotesGrow(a.current, line);
    OutsideIffEven(a.current + [line]);
  }

  lemma WrongCut(a: Scanner, b: Scanner, line: string)
    requires InStep(a, b) && !SameSplits(Feed(a, line), LexFeed(b, line))
    ensures var m := |a.finished|;
            Apart(Feed(a, line), LexFeed(b, line), m) || Apart(LexFeed(b, line), Feed(a, line), m)
  {
  }

  /** A statement that one of them has finished is at least as long as a part of one with
      the other, and longer than none that is finished there. */
  predicate Apart(a: Scanner, b: Scanner, m: nat) {
    m < |a.finished| && m <= |b.finished| && a.finished[m] != [] &&
    if m == |b.finished| then a.finished[m] <= b.current else a.finished[m] < b.finished[m]
  }

  lemma ApartStays(a: Scanner, b: Scanner, m: nat, line: string, q: Quote, a': Scanner)
    requires Apart(a, b, m) && a.finished <= a'.finished
    ensures Apart(a', Taken(b, line, q), m)
    ensures b.current == [] ==> Apart(a', b, m)
    ensures !SameSplits(a, b)
  {
  }

  ghost predicate Diverged(a: Scanner, b: Scanner) {
    exists m :: Apart(a, b, m) || Apart(b, a, m)
  }

  /** Once they have split differently, they never agree again. */
  lemma {:induction false} DifferentStaysDifferent(lines: seq<string>)
    ensures SameSplits(Scan(lines), LexScan(lines)) || Diverged(Scan(lines), LexScan(lines))
    ensures lines != [] && SameSplits(Scan(lines), LexScan(lines)) ==>
              SameSplits(Scan(lines[..|lines| - 1]), LexScan(lines[..|lines| - 1]))
  {
    if lines != [] {
      var init, line := lines[..|lines| - 1], lines[|lines| - 1];
      DifferentStaysDifferent(init);
      var a, b := Scan(init), LexScan(init);
      if SameSplits(a, b) {
        ScanHasQuote(init);
        if !SameSplits(Feed(a, line), LexFeed(b, line)) { WrongCut(a, b, line); }
      } else {
        var m :| Apart(a, b, m) || Apart(b, a, m);
        if Apart(a, b, m) {
          ApartStays(a, b, m, line, Lex(b.quote, line, 0), Feed(a, line));
        } else {
          ApartStays(b, a, m, line, AfterLine(a.quote, line), LexFeed(b, line));
        }
        assert Diverged(Feed(a, line), LexFeed(b, line));
      }
    }
  }

  ghost predicate CutsAreRight(lines: seq<string>) {
    forall i :: 0 <= i < |lines| ==> CutsRight(Scan(lines[..i]), lines[i])
  }

  lemma OneCutMore(init: seq<string>, line: string)
    ensures CutsAreRight(init + [line]) <==> CutsAreRight(init) && CutsRight(Scan(init), line)
  {
    var lines := init + [line];
    assert lines[..|init|] == init && lines[|init|] == line;
    assert forall i :: 0 <= i < |init| ==> lines[..i] == init[..i] && lines[i] == init[i];
  }

  /** For every input: the splitter finds the statements that the lexer's quotes delimit
      exactly when each of its cuts, made or not, is right. */
  lemma {:induction false} SplitsAsLexedIff(lines: seq<string>)
    ensures SameSplits(Scan(lines), LexScan(lines)) <==> CutsAreRight(lines)
  {
    if lines != [] {
      var init, line := lines[..|lines| - 1], lines[|lines| - 1];
      assert init + [line] == lines;
      SplitsAsLexedIff(init);
      OneCutMore(init, line);
      DifferentStaysDifferent(lines);
      if SameSplits(Scan(init), LexScan(init)) {
        ScanHasQuote(init);
        NextCut(Scan(init), LexScan(init), line);
      }
    }
  }

  // ----- The statements as texts

  lemma {:induction false} NothingOccurs(line: string, tag: string, i: nat)
    requires tag != "" && i <= |line| && forall j :: i <= j < |line| ==> !OccursAt(line, tag, j)
    ensures Count(line, tag, i) == 0
    decreases |line| - i
  {
    if i < |line| { NothingOccurs(line, tag, i + 1); }
  }

  lemma FirstLineSplits(first: string, second: string, tag: string)
    requires AfterLine(Outside, first) == Outside && EndsWith(Strip(first), ';') && !IsJunk(first)
    requires AfterLine(Outside, second) == Inside(tag) && !IsJunk(second)
    ensures Scan([first, second]) == Scanner([[first]], [second], Inside(tag))
  {
    assert [first][..0] == [] && [first, second][..1] == [first];
    assert Scan([first]) == Feed(Scan([]), first);
    assert [] + [first] == [first] && [] + [[first]] == [[first]];
    assert Scan([first, second]) == Feed(Scan([first]), second);
  }

  lemma LexTwoLines(first: string, second: string)
    ensures LexLines([first]) == Lex(Outside, first, 0) &&
            LexLines([first, second]) == Lex(LexLines([first]), second, 0)
  {
    assert [first][..0] == [] && [first, second][..1] == [first];
    assert LexLines([first]) == Lex(LexLines([]), first, 0);
  }

  /** With several tags on a line a statement can end inside a quote.  The splitter counts
      two `$a$` in the first line, takes it for closed and ends a statement there; but the
      line has opened `$b$`, and the second line is still in that quote. */
  lemma SplitsInsideQuote(first: string, second: string)
    requires first == "DO $a$$a$$b$;" && second == "y$b$;"
    ensures Scan([first, second]).finished == [[first]] && Scan([first, second]).current == [second]
    ensures LexLines([first]) == Inside("$b$") && LexLines([first, second]) == Outside
  {
    FirstLineMisread(first);
    SecondLineMisread(second);
    FirstLineSplits(first, second, "$b$");
    LexTwoLines(first, second);
  }

  lemma OtherChar(line: string, tag: string, i: nat, k: nat)
    requires k < |tag| && (i + |tag| <= |line| ==> line[i + k] != tag[k])
    ensures !OccursAt(line, tag, i)
  {
    assert i + |tag| <= |line| ==> line[i..i + |tag|][k] == line[i + k];
  }

  lemma FirstLineTag(line: string)
    requires line == "DO $a$$a$$b$;"
    ensures FirstTag(line, 0) == 3 && TagAt(line, 3) && TagFrom(line, 3) == "$a$"
  {
    assert RunEnd(line, 4) == 5 && TagAt(line, 3) && TagFrom(line, 3) == "$a$";
    assert !TagAt(line, 0) && !TagAt(line, 1) && !TagAt(line, 2);
    assert FirstTag(line, 3) == 3;
    assert FirstTag(line, 2) == FirstTag(line, 1) == FirstTag(line, 0) == 3;
  }

  lemma FirstLineCounted(line: string)
    requires line == "DO $a$$a$$b$;"
    ensures AfterLine(Outside, line) == Outside
  {
    FirstLineTag(line);
    forall j | 9 <= j < |line| ensures !OccursAt(line, "$a$", j) {
      OtherChar(line, "$a$", j, 1);
    }
    NothingOccurs(line, "$a$", 9);
    assert OccursAt(line, "$a$", 6) && OccursAt(line, "$a$", 3);
    assert Count(line, "$a$", 6) == 1 + Count(line, "$a$", 9);
    assert Count(line, "$a$", 3) == 1 + Count(line, "$a$", 6);
    assert !OccursAt(line, "$a$", 0) && !OccursAt(line, "$a$", 1) && !OccursAt(line, "$a$", 2);
    assert Count(line, "$a$", 2) == Count(line, "$a$", 1) == Count(line, "$a$", 0) == 2;
  }

  lemma FirstLineLexed(line: string)
    requires line == "DO $a$$a$$b$;"
    ensures Lex(Outside, line, 0) == Inside("$b$")
  {
    assert RunEnd(line, 4) == 5 && TagFrom(line, 3) == "$a$";
    assert RunEnd(line, 10) == 11 && TagFrom(line, 9) == "$b$";
    assert Lex(Inside("$b$"), line, 13) == Inside("$b$") && !OccursAt(line, "$b$", 12);
    assert Lex(Inside("$b$"), line, 12) == Inside("$b$");
    assert Lex(Outside, line, 9) == Inside("$b$");
    assert Lex(Inside("$a$"), line, 6) == Inside("$b$");
    assert Lex(Outside, line, 3) == Inside("$b$");
    assert !TagAt(line, 0) && !TagAt(line, 1) && !TagAt(line, 2);
    assert Lex(Outside, line, 2) == Lex(Outside, line, 1) == Lex(Outside, line, 0);
  }

  lemma FirstLineMisread(line: string)
    requires line == "DO $a$$a$$b$;"
    ensures AfterLine(Outside, line) == Outside && Lex(Outside, line, 0) == Inside("$b$")
    ensures EndsWith(Strip(line), ';') && !IsJunk(line)
  {
    FirstLineCounted(line);
    FirstLineLexed(line);
    assert line[0] == 'D' && line[12] == ';' && |line| == 13;
    assert StripLeft(line) == line && StripRight(line) == line;
  }

  lemma SecondLineMisread(line: string)
    requires line == "y$b$;"
    ensures AfterLine(Outside, line) == Inside("$b$") && Lex(Inside("$b$"), line, 0) == Outside && !IsJunk(line)
  {
    assert RunEnd(line, 2) == 3 && TagFrom(line, 1) == "$b$" && !TagAt(line, 0);
    assert FirstTag(line, 0) == 1;
    NothingOccurs(line, "$b$", 4);
    assert Count(line, "$b$", 1) == 1 && !OccursAt(line, "$b$", 0);
    assert Count(line, "$b$", 0) == 1;
    assert !TagAt(line, 4);
    assert Lex(Outside, line, 5) == Outside;
    assert Lex(Outside, line, 4) == Outside;
    assert Lex(Inside("$b$"), line, 1) == Outside;
    assert Strip(line) == line;
  }

  function StatementText(lines: seq<string>): string {
    Strip(JoinLines(lines))
  }

  function Texts(groups: seq<seq<string>>): seq<string> {
    seq(|groups|, i requires 0 <= i < |groups| => StatementText(groups[i]))
  }

  predicate AllSpace(s: string) {
    forall i :: 0 <= i < |s| ==> IsSpace(s[i])
  }

  lemma {:induction false} StripLeftEmpty(s: string)
    ensures AllSpace(s) ==> StripLeft(s) == ""
    ensures !AllSpace(s) ==> StripLeft(s) != "" && !IsSpace(StripLeft(s)[0])
  {
    if s != "" && IsSpace(s[0]) {
      StripLeftEmpty(s[1..]);
      assert AllSpace(s) <==> AllSpace(s[1..]) by {
        assert forall i :: 0 < i < |s| ==> s[i] == s[1..][i - 1];
      }
    }
  }

  lemma {:induction false} StripRightKeepsFirst(s: string)
    requires s != "" && !IsSpace(s[0])
    ensures StripRight(s) != ""
  {
    if IsSpace(s[|s| - 1]) {
      StripRightKeepsFirst(s[..|s| - 1]);
    }
  }

  lemma StripEmpty(s: string)
    ensures Strip(s) == "" <==> AllSpace(s)
  {
    StripLeftEmpty(s);
    if !AllSpace(s) {
      StripRightKeepsFirst(StripLeft(s));
    }
  }

  /** A statement that starts with a line of its own has a text. */
  lemma TextOfStatement(lines: seq<string>)
    requires lines != [] && !IsJunk(lines[0])
    ensures StatementText(lines) != ""
  {
    StripEmpty(lines[0]);
    StripEmpty(JoinLines(lines));
    var i :| 0 <= i < |lines[0]| && !IsSpace(lines[0][i]);
    assert JoinLines(lines)[i] == lines[0][i];
  }

  lemma {:induction false} PartialStarts(lines: seq<string>)
    requires Partial(lines) && lines != []
    ensures !IsJunk(lines[0])
  {
    if |lines| > 1 {
      PartialStarts(lines[..|lines| - 1]);
    }
  }

  lemma TextsGrow(groups: seq<seq<string>>, g: seq<string>)
    ensures Texts(groups + [g]) == Texts(groups) + [StatementText(g)]
  {
  }

  /** Track whether a dollar quote is open after a line. */
  method TrackQuote(quote: Quote, line: string) returns (after: Quote)
    requires WellTagged(quote)
    ensures after == AfterLine(quote, line)
  {
    after := quote;
    match quote {
      case Outside =>
        var p := FirstTag(line, 0);
        if p < |line| {
          var tag := TagFrom(line, p);
          if Count(line, tag, 0) % 2 == 1 { after := Inside(tag); }
        }
      case Inside(tag) =>
        if Count(line, tag, 0) % 2 == 1 { after := Outside; }
    }
  }

  /** Keep what was collected.  The program's two filters, for empty texts and for
      collections of comment lines only, never drop anything. */
  method Keep(statements: seq<string>, current: seq<string>) returns (kept: seq<string>)
    requires current != [] && !IsJunk(current[0])
    ensures kept == statements + [StatementText(current)]
  {
    TextOfStatement(current);
    var stmt := Strip(JoinLines(current));
    kept := statements;
    if stmt != "" && !(forall k :: 0 <= k < |current| ==> IsJunk(current[k])) {
      kept := kept + [stmt];
    }
  }

  /** What `_split_sql` returns, left-over lines included. */
  function SplitText(sql: string): seq<string> {
    var sc := Scan(SplitLines(sql));
    Texts(sc.finished) + if sc.current == [] then [] else [StatementText(sc.current)]
  }

  /** The loop body: one more line. */
  method TakeLine(statements: seq<string>, current: seq<string>, quote: Quote, line: string, ghost sc: Scanner)
    returns (statements': seq<string>, current': seq<string>, quote': Quote)
    requires WellTagged(quote) && current == sc.current && quote == sc.quote && statements == Texts(sc.finished)
    requires current != [] ==> !IsJunk(current[0])
    ensures var next := Feed(sc, line);
            current' == next.current && quote' == next.quote && statements' == Texts(next.finished)
    ensures current' != [] ==> !IsJunk(current'[0])
  {
    statements', current', quote' := statements, current, quote;
    if current == [] && IsJunk(line) { return; }
    quote' := TrackQuote(quote, line);
    current' := current + [line];
    if quote' == Outside && EndsWith(Strip(line), ';') {
      TextsGrow(sc.finished, current');
      statements' := Keep(statements, current');
      current' := [];
    }
  }

  /** `_split_sql`. */
  method SplitSql(sql: string) returns (statements: seq<string>)
    ensures statements == SplitText(sql)
  {
    var lines := SplitLines(sql);
    var current: seq<string>, quote := [], Outside;
    statements := [];
    ghost var sc := Scan([]);
    for i := 0 to |lines|
      invariant sc == Scan(lines[..i])
      invariant statements == Texts(sc.finished) && current == sc.current && quote == sc.quote
      invariant current != [] ==> !IsJunk(current[0])
    {
      assert lines[..i + 1] == lines[..i] + [lines[i]];
      ScanMore(lines[..i], lines[i]);
      statements, current, quote := TakeLine(statements, current, quote, lines[i], sc);
      sc := Feed(sc, lines[i]);
    }
    assert lines[..|lines|] == lines;
    if current != [] {
      statements := Keep(statements, current);
    }
  }
}
