/** The migration file: printing the statements of a diff, and reading them back. */
module SqlScript {
  import opened Options
  import opened Schema
  import opened SchemaDiff
  import opened TextLines
  import opened SqlSplit
  import opened Migration

  // ----- Statement texts

  function Digits(n: nat): string {
    var last := [('0' as int + n % 10) as char];
    if n < 10 then last else Digits(n / 10) + last
  }

  function TypeText(udt: string, length: nat): string {
    if length == 0 then udt else udt + "(" + Digits(length) + ")"
  }

  function ColumnText(name: string, c: Column): string {
    name + " " + TypeText(c.udt, c.length) + (if c.nullable then "" else " NOT NULL") +
    (if c.default == "" then "" else " DEFAULT " + c.default)
  }

  /** The column lines of a table definition, with commas between them. */
  function DefTexts(defs: seq<ColumnDef>): string {
    if defs == [] then ""
    else
      var first := "    " + ColumnText(defs[0].name, defs[0].column);
      if |defs| == 1 then first else first + ",\n" + DefTexts(defs[1..])
  }

  /** `startswith` of the upper-cased text, for an upper-case prefix of ASCII letters and spaces. */
  predicate StartsWithIgnoringCase(s: string, prefix: string) {
    |prefix| <= |s| && forall i :: 0 <= i < |prefix| ==>
      s[i] == prefix[i] || ('A' <= prefix[i] <= 'Z' && s[i] as int == prefix[i] as int + 32)
  }

  /** A word with a space after it, if there is one. */
  function Word(word: string): string {
    if word == "" then "" else word + " "
  }

  function ParamsText(params: seq<Param>): string {
    if params == [] then ""
    else
      var first := Word(params[0].mode) + Word(params[0].name) + params[0].kind;
      if |params| == 1 then first else first + ", " + ParamsText(params[1..])
  }

  /** The key of a function as the program has it. */
  function SigText(sig: Sig): string {
    sig.name + "(" + ParamsText(sig.params) + ")"
  }

  function RoutineText(definition: string): string {
    var body :=
      if StartsWithIgnoringCase(definition, "CREATE OR REPLACE ") then definition
      else if StartsWithIgnoringCase(definition, "CREATE ") then "CREATE OR REPLACE " + definition[7..]
      else "CREATE OR REPLACE FUNCTION " + definition;
    if EndsWith(StripRight(body), ';') then body else StripRight(body) + ";"
  }

  function Render(s: Statement): string {
    match s
    case CreateTableIfNotExists(t, defs) =>
      "CREATE TABLE IF NOT EXISTS " + t + " (\n" + DefTexts(defs) + "\n);"
    case AddColumnIfNotExists(k, c) =>
      "ALTER TABLE " + k.table + " ADD COLUMN IF NOT EXISTS " + ColumnText(k.name, c) + ";"
    case AlterType(k, udt, length) =>
      "ALTER TABLE " + k.table + " ALTER COLUMN " + k.name + " TYPE " + TypeText(udt, length) + ";"
    case DropNotNull(k) =>
      "ALTER TABLE " + k.table + " ALTER COLUMN " + k.name + " DROP NOT NULL;"
    case SetNotNull(k) =>
      "ALTER TABLE " + k.table + " ALTER COLUMN " + k.name + " SET NOT NULL;"
    case DropIndexIfExists(n) => "DROP INDEX IF EXISTS " + n + ";"
    case CreateIndex(n, i) => i.definition + ";"
    case CreateOrReplaceRoutine(sig, f) => RoutineText(f.definition)
    case DropTriggerIfExists(k) => "DROP TRIGGER IF EXISTS " + k.name + " ON " + k.table + ";"
    case CreateTrigger(k, g) => g.definition + ";"
  }

  function RenderAll(script: seq<Statement>): seq<string> {
    seq(|script|, i requires 0 <= i < |script| => Render(script[i]))
  }

  // ----- The file as pieces: comments, statements and blank lines

  /** The comment lines above an operation's statements. */
  function Comments(op: Op, l: Snapshot, listing: seq<ColumnKey>): seq<string> {
    match op
    case NewTable(t) =>
      ["-- New table: " + t] +
      (if DefsOf(l, listing, t) == [] then ["-- Could not retrieve columns for " + t] else [])
    case ChangedColumn(k, _, _) =>
      if StatementsOf(op, l, listing) == [] then [] else ["-- Alter column: " + KeyText(k.table, k.name)]
    case NewRoutine(sig, _) => ["-- New function: " + SigText(sig)]
    case ChangedRoutine(sig, _) => ["-- Changed function: " + SigText(sig)]
    case NewTrigger(k, g) =>
      ["-- New trigger: " + KeyText(k.table, k.name) + if g.definition == "" then " (definition not captured)" else ""]
    case ChangedTrigger(k, g) =>
      ["-- Changed trigger: " + KeyText(k.table, k.name) + if g.definition == "" then " (definition not captured)"
       else ""]
    case _ => []
  }

  /** One section of the file. */
  function Pieces(op: Op, l: Snapshot, listing: seq<ColumnKey>): seq<string> {
    Comments(op, l, listing) + RenderAll(StatementsOf(op, l, listing)) + if op.NewTable? then [""] else []
  }

  /** All sections, each followed by a blank line; the last blank piece is the final newline. */
  function FilePieces(ops: seq<Op>, l: Snapshot, listing: seq<ColumnKey>): seq<string> {
    if ops == [] then []
    else
      var init, section := FilePieces(ops[..|ops| - 1], l, listing), Pieces(ops[|ops| - 1], l, listing);
      if section == [] then init else init + section + [""]
  }

  // ----- Generating the text

  function KeyText(table: string, name: string): string {
    table + "." + name
  }

  /** `b` on the line below `a`. */
  function Under(a: string, b: string): string {
    a + "\n" + b
  }

  /** The text of an operation's section; None when the program appends no section. */
  function SectionText(op: Op, l: Snapshot, listing: seq<ColumnKey>): Option<string> {
    match op
    case NewTable(t) =>
      var defs := DefsOf(l, listing, t);
      Some(Under("-- New table: " + t,
                 if defs == [] then Under("-- Could not retrieve columns for " + t, "")
                 else Under(Render(CreateTableIfNotExists(t, defs)), "")))
    case NewColumn(k, c) =>
      Some(Render(AddColumnIfNotExists(k, c)))
    case ChangedColumn(k, _, _) =>
      var stmts := RenderAll(StatementsOf(op, l, listing));
      if stmts == [] then None
      else Some(Under("-- Alter column: " + KeyText(k.table, k.name), JoinLines(stmts)))
    case NewIndex(n, i) =>
      Some(i.definition + ";")
    case ChangedIndex(n, i) =>
      Some(Under("DROP INDEX IF EXISTS " + n + ";", i.definition + ";"))
    case NewRoutine(sig, f) =>
      Some(Under("-- New function: " + SigText(sig), RoutineText(f.definition)))
    case ChangedRoutine(sig, f) =>
      Some(Under("-- Changed function: " + SigText(sig), RoutineText(f.definition)))
    case NewTrigger(k, g) =>
      var title := "-- New trigger: " + KeyText(k.table, k.name);
      Some(if g.definition == "" then title + " (definition not captured)" else Under(title, g.definition + ";"))
    case ChangedTrigger(k, g) =>
      var title := "-- Changed trigger: " + KeyText(k.table, k.name);
      Some(if g.definition == "" then title + " (definition not captured)"
           else Under(title, Under("DROP TRIGGER IF EXISTS " + k.name + " ON " + k.table + ";", g.definition + ";")))
  }

  lemma RenderFew(a: Statement, b: Statement)
    ensures RenderAll([a]) == [Render(a)] && RenderAll([a, b]) == [Render(a), Render(b)]
  {
  }

  lemma JoinFew(a: string, b: string, c: string)
    ensures JoinLines([a, b]) == Under(a, b) && JoinLines([a, b, c]) == Under(a, Under(b, c))
  {
    assert [a, b][1..] == [b] && [b, c][1..] == [c] && [a, b, c][1..] == [b, c];
    assert JoinLines([b, c]) == Under(b, c);
  }

  /** A section's text is its pieces put one below the other. */
  lemma SectionIsPieces(op: Op, l: Snapshot, listing: seq<ColumnKey>)
    ensures var pieces := Pieces(op, l, listing);
            SectionText(op, l, listing) == if pieces == [] then None else Some(JoinLines(pieces))
  {
    match op {
      case NewTable(t) => TableSection(t, l, listing);
      case ChangedColumn(_, _, _) => ColumnSection(op, l, listing);
      case ChangedIndex(n, i) => ChangedIndexSection(n, i, l, listing);
      case NewColumn(k, c) =>
        RenderFew(AddColumnIfNotExists(k, c), AddColumnIfNotExists(k, c));
        assert Pieces(op, l, listing) == [Render(AddColumnIfNotExists(k, c))];
      case NewIndex(n, i) =>
        RenderFew(CreateIndex(n, i), CreateIndex(n, i));
        assert Pieces(op, l, listing) == [i.definition + ";"];
      case NewRoutine(sig, f) => RoutineSection(op, sig, f, l, listing);
      case ChangedRoutine(sig, f) => RoutineSection(op, sig, f, l, listing);
      case NewTrigger(_, _) => TriggerSection(op, l, listing);
      case ChangedTrigger(_, _) => TriggerSection(op, l, listing);
    }
  }

  lemma ChangedIndexSection(n: string, i: Index, l: Snapshot, listing: seq<ColumnKey>)
    ensures var op := ChangedIndex(n, i);
            SectionText(op, l, listing) == Some(JoinLines(Pieces(op, l, listing))) && Pieces(op, l, listing) != []
  {
    RenderFew(DropIndexIfExists(n), CreateIndex(n, i));
    JoinFew("DROP INDEX IF EXISTS " + n + ";", i.definition + ";", "");
    assert Pieces(ChangedIndex(n, i), l, listing) == ["DROP INDEX IF EXISTS " + n + ";", i.definition + ";"];
  }

  lemma RoutineSection(op: Op, sig: Sig, f: Routine, l: Snapshot, listing: seq<ColumnKey>)
    requires op == NewRoutine(sig, f) || op == ChangedRoutine(sig, f)
    ensures SectionText(op, l, listing) == Some(JoinLines(Pieces(op, l, listing))) && Pieces(op, l, listing) != []
  {
    var comment, text := Comments(op, l, listing)[0], RoutineText(f.definition);
    RenderFew(CreateOrReplaceRoutine(sig, f), CreateOrReplaceRoutine(sig, f));
    JoinFew(comment, text, "");
    if op.NewRoutine? {
      assert comment == "-- New function: " + SigText(sig);
    } else {
      assert comment == "-- Changed function: " + SigText(sig);
    }
    assert Pieces(op, l, listing) == [comment, text];
  }

  lemma TableSection(t: string, l: Snapshot, listing: seq<ColumnKey>)
    ensures var op := NewTable(t);
            SectionText(op, l, listing) == Some(JoinLines(Pieces(op, l, listing))) && Pieces(op, l, listing) != []
  {
    var defs, title := DefsOf(l, listing, t), "-- New table: " + t;
    var pieces := Pieces(NewTable(t), l, listing);
    if defs == [] {
      JoinFew(title, "-- Could not retrieve columns for " + t, "");
      assert pieces == [title, "-- Could not retrieve columns for " + t, ""];
    } else {
      var create := CreateTableIfNotExists(t, defs);
      RenderFew(create, create);
      JoinFew(title, Render(create), "");
      assert pieces == [title, Render(create), ""];
    }
  }

  lemma ColumnSection(op: Op, l: Snapshot, listing: seq<ColumnKey>)
    requires op.ChangedColumn?
    ensures var pieces := Pieces(op, l, listing);
            SectionText(op, l, listing) == if pieces == [] then None else Some(JoinLines(pieces))
  {
    var stmts := RenderAll(StatementsOf(op, l, listing));
    if stmts != [] {
      var comment := Comments(op, l, listing);
      JoinConcat(comment, stmts);
      assert Pieces(op, l, listing) == comment + stmts;
    } else {
      assert Pieces(op, l, listing) == [];
    }
  }

  lemma TriggerSection(op: Op, l: Snapshot, listing: seq<ColumnKey>)
    requires op.NewTrigger? || op.ChangedTrigger?
    ensures SectionText(op, l, listing) == Some(JoinLines(Pieces(op, l, listing))) && Pieces(op, l, listing) != []
  {
    if op.NewTrigger? {
      NewTriggerSection(op, l, listing);
    } else {
      ChangedTriggerSection(op, l, listing);
    }
  }

  lemma NewTriggerSection(op: Op, l: Snapshot, listing: seq<ColumnKey>)
    requires op.NewTrigger?
    ensures SectionText(op, l, listing) == Some(JoinLines(Pieces(op, l, listing))) && Pieces(op, l, listing) != []
  {
    var k, g := op.trigger, op.body;
    var create := CreateTrigger(k, g);
    var comment := Comments(op, l, listing)[0];
    RenderFew(create, create);
    if g.definition == "" {
      assert Pieces(op, l, listing) == [comment];
    } else {
      JoinFew(comment, Render(create), "");
      assert comment == "-- New trigger: " + KeyText(k.table, k.name);
      assert Pieces(op, l, listing) == [comment, Render(create)];
    }
  }

  lemma ChangedTriggerSection(op: Op, l: Snapshot, listing: seq<ColumnKey>)
    requires op.ChangedTrigger?
    ensures SectionText(op, l, listing) == Some(JoinLines(Pieces(op, l, listing))) && Pieces(op, l, listing) != []
  {
    var k, g := op.trigger, op.body;
    var create, drop := CreateTrigger(k, g), DropTriggerIfExists(k);
    var comment := Comments(op, l, listing)[0];
    RenderFew(drop, create);
    if g.definition == "" {
      assert Pieces(op, l, listing) == [comment];
    } else {
      JoinFew(comment, Render(drop), Render(create));
      assert comment == "-- Changed trigger: " + KeyText(k.table, k.name);
      assert Pieces(op, l, listing) == [comment, Render(drop), Render(create)];
    }
  }

  function Sections(ops: seq<Op>, l: Snapshot, listing: seq<ColumnKey>): seq<string> {
    if ops == [] then []
    else
      var init, last := Sections(ops[..|ops| - 1], l, listing), SectionText(ops[|ops| - 1], l, listing);
      if last == None then init else init + [last.value]
  }

  /** `"\n\n".join`. */
  function JoinSections(sections: seq<string>): string {
    if sections == [] then ""
    else if |sections| == 1 then sections[0]
    else JoinSections(sections[..|sections| - 1]) + "\n\n" + sections[|sections| - 1]
  }

  /** `_generate_sql`. */
  method GenerateSql(ops: seq<Op>, l: Snapshot, listing: seq<ColumnKey>) returns (sql: string)
    ensures sql == JoinLines(FilePieces(ops, l, listing))
  {
    var sections: seq<string> := [];
    for i := 0 to |ops|
      invariant sections == Sections(ops[..i], l, listing)
    {
      assert ops[..i + 1][..i] == ops[..i];
      var section := SectionText(ops[i], l, listing);
      if section != None {
        sections := sections + [section.value];
      }
    }
    assert ops[..|ops|] == ops;
    FileIsSections(ops, l, listing);
    sql := if sections == [] then "" else JoinSections(sections) + "\n";
  }

  lemma SectionBelow(sections: seq<string>, before: seq<string>, pieces: seq<string>)
    requires sections == [] <==> before == []
    requires JoinLines(before) == if sections == [] then "" else JoinSections(sections) + "\n"
    requires pieces != []
    ensures JoinLines(before + pieces + [""]) == JoinSections(sections + [JoinLines(pieces)]) + "\n"
  {
    JoinConcat(pieces, [""]);
    var text := JoinLines(pieces);
    if before == [] {
      assert before + pieces + [""] == pieces + [""];
    } else {
      JoinConcat(before, pieces + [""]);
      assert before + pieces + [""] == before + (pieces + [""]);
      assert (sections + [text])[..|sections|] == sections;
      NewlinesMeet(JoinSections(sections), text);
    }
  }

  lemma {:induction false} FileIsSections(ops: seq<Op>, l: Snapshot, listing: seq<ColumnKey>)
    ensures var sections, pieces := Sections(ops, l, listing), FilePieces(ops, l, listing);
            && (sections == [] <==> pieces == [])
            && JoinLines(pieces) == if sections == [] then "" else JoinSections(sections) + "\n"
  {
    if ops != [] {
      var init, op := ops[..|ops| - 1], ops[|ops| - 1];
      FileIsSections(init, l, listing);
      SectionIsPieces(op, l, listing);
      if Pieces(op, l, listing) != [] {
        SectionBelow(Sections(init, l, listing), FilePieces(init, l, listing), Pieces(op, l, listing));
      }
    }
  }

  lemma NewlinesMeet(a: string, b: string)
    ensures (a + "\n") + "\n" + (b + "\n" + "") == a + "\n\n" + b + "\n"
  {
  }

  // ----- Reading the file back

  lemma {:induction false} StripRightKeepsStart(s: string, n: nat)
    requires n <= |s| && forall i :: 0 <= i < n ==> !IsSpace(s[i])
    ensures n <= |StripRight(s)| && StripRight(s)[..n] == s[..n]
  {
    if n < |s| && IsSpace(s[|s| - 1]) {
      StripRightKeepsStart(s[..|s| - 1], n);
    }
  }

  /** A line that starts with two dashes is a comment line. */
  lemma CommentIsJunk(line: string)
    requires "--" <= line
    ensures IsJunk(line)
  {
    StripRightKeepsStart(line, 2);
    assert StripLeft(line) == line;
    assert StripRight(line)[..2] == "--";
  }

  lemma {:induction false} PrintedJunk(junk: seq<string>)
    requires forall j :: 0 <= j < |junk| ==> IsJunk(junk[j])
    ensures Printed(junk, [])
  {
    if junk != [] {
      PrintedJunk(junk[..|junk| - 1]);
    }
  }

  /** The statements of a script as groups of lines. */
  function Groups(script: seq<Statement>): seq<seq<string>> {
    seq(|script|, i requires 0 <= i < |script| => SplitLines(Render(script[i])))
  }

  lemma {:induction false} PrintedTexts(texts: seq<string>)
    ensures Printed(AllLines(texts), seq(|texts|, i requires 0 <= i < |texts| => SplitLines(texts[i])))
  {
    if texts != [] {
      var n := |texts| - 1;
      var init, text := texts[..n], texts[n];
      var groups := seq(|texts|, i requires 0 <= i < |texts| => SplitLines(texts[i]));
      PrintedTexts(init);
      assert groups[..n] == seq(n, i requires 0 <= i < n => SplitLines(init[i]));
      PrintedThenStatement(AllLines(init), groups[..n], SplitLines(text));
      AllLinesConcat(init, [text]);
      assert AllLines([text]) == SplitLines(text) && init + [text] == texts;
      assert groups[..n] + [SplitLines(text)] == groups;
    }
  }

  lemma PrintedScript(script: seq<Statement>)
    ensures Printed(AllLines(RenderAll(script)), Groups(script))
  {
    var texts := RenderAll(script);
    PrintedTexts(texts);
    assert seq(|texts|, i requires 0 <= i < |texts| => SplitLines(texts[i])) == Groups(script);
  }

  lemma GroupsConcat(a: seq<Statement>, b: seq<Statement>)
    ensures Groups(a + b) == Groups(a) + Groups(b)
  {
  }

  /** The names in an operation's comments are on one line. */
  ghost predicate TitlesAreLines(op: Op, l: Snapshot, listing: seq<ColumnKey>) {
    forall i :: 0 <= i < |Comments(op, l, listing)| ==> NoNewline(Comments(op, l, listing)[i])
  }

  lemma {:induction false} LinesOfLines(texts: seq<string>)
    requires forall i :: 0 <= i < |texts| ==> NoNewline(texts[i])
    ensures AllLines(texts) == texts
  {
    if texts != [] {
      SplitOneLine(texts[0]);
      LinesOfLines(texts[1..]);
    }
  }

  lemma PrintedAround(comments: seq<string>, lines: seq<string>, groups: seq<seq<string>>, blanks: seq<string>)
    requires forall i :: 0 <= i < |comments| ==> IsJunk(comments[i])
    requires forall i :: 0 <= i < |blanks| ==> IsJunk(blanks[i])
    requires Printed(lines, groups)
    ensures Printed(comments + lines + blanks, groups)
  {
    PrintedJunk(comments);
    PrintedJunk(blanks);
    PrintedConcat(comments, [], lines, groups);
    PrintedConcat(comments + lines, [] + groups, blanks, []);
    assert [] + groups + [] == groups;
  }

  lemma PrintedBelow(before: seq<string>, groups: seq<seq<string>>, section: seq<string>, more: seq<seq<string>>)
    requires Printed(AllLines(before), groups) && Printed(AllLines(section), more)
    ensures Printed(AllLines(before + section), groups + more)
  {
    AllLinesConcat(before, section);
    PrintedConcat(AllLines(before), groups, AllLines(section), more);
  }

  lemma PiecesSplit(op: Op, l: Snapshot, listing: seq<ColumnKey>) returns (blanks: seq<string>)
    ensures blanks == (if op.NewTable? then [""] else []) + [""]
    ensures Pieces(op, l, listing) + [""] ==
            Comments(op, l, listing) + RenderAll(StatementsOf(op, l, listing)) + blanks
    ensures forall i :: 0 <= i < |blanks| ==> blanks[i] == ""
  {
    blanks := (if op.NewTable? then [""] else []) + [""];
  }

  lemma PrintedSection(op: Op, l: Snapshot, listing: seq<ColumnKey>)
    requires TitlesAreLines(op, l, listing)
    ensures Printed(AllLines(Pieces(op, l, listing) + [""]), Groups(StatementsOf(op, l, listing)))
  {
    var comments, script := Comments(op, l, listing), StatementsOf(op, l, listing);
    var blanks := PiecesSplit(op, l, listing);
    forall i | 0 <= i < |comments| ensures IsJunk(comments[i]) {
      CommentStarts(op, l, listing, i);
      CommentIsJunk(comments[i]);
    }
    PrintedScript(script);
    assert Strip("") == "";
    PrintedAround(comments, AllLines(RenderAll(script)), Groups(script), blanks);
    SectionLines(comments, RenderAll(script), blanks);
  }

  lemma CommentStarts(op: Op, l: Snapshot, listing: seq<ColumnKey>, i: nat)
    requires i < |Comments(op, l, listing)|
    ensures "--" <= Comments(op, l, listing)[i]
  {
  }

  lemma SectionLines(comments: seq<string>, texts: seq<string>, blanks: seq<string>)
    requires forall i :: 0 <= i < |comments| ==> NoNewline(comments[i])
    requires forall i :: 0 <= i < |blanks| ==> NoNewline(blanks[i])
    ensures AllLines(comments + texts + blanks) == comments + AllLines(texts) + blanks
  {
    LinesOfLines(comments);
    LinesOfLines(blanks);
    AllLinesConcat(comments, texts);
    AllLinesConcat(comments + texts, blanks);
  }

  /** The file of one more operation. */
  lemma FileMore(ops: seq<Op>, l: Snapshot, listing: seq<ColumnKey>)
    requires ops != []
    ensures var init, op := ops[..|ops| - 1], ops[|ops| - 1];
            var section, script := Pieces(op, l, listing), StatementsOf(op, l, listing);
            if section == [] then
              Plan(ops, l, listing) == Plan(init, l, listing) &&
              FilePieces(ops, l, listing) == FilePieces(init, l, listing)
            else
              && Plan(ops, l, listing) == Plan(init, l, listing) + script
              && FilePieces(ops, l, listing) == FilePieces(init, l, listing) + (section + [""])
  {
    var init, op := ops[..|ops| - 1], ops[|ops| - 1];
    var section, script := Pieces(op, l, listing), StatementsOf(op, l, listing);
    assert Plan(ops, l, listing) == Plan(init, l, listing) + script;
    if section == [] {
      assert Plan(init, l, listing) + [] == Plan(init, l, listing);
    } else {
      assert FilePieces(init, l, listing) + section + [""] == FilePieces(init, l, listing) + (section + [""]);
    }
  }

  lemma PrintedMore(before: seq<string>, plan: seq<Statement>, op: Op, l: Snapshot, listing: seq<ColumnKey>)
    requires Printed(AllLines(before), Groups(plan)) && TitlesAreLines(op, l, listing) && Pieces(op, l, listing) != []
    ensures Printed(AllLines(before + (Pieces(op, l, listing) + [""])), Groups(plan + StatementsOf(op, l, listing)))
  {
    GroupsConcat(plan, StatementsOf(op, l, listing));
    PrintedSection(op, l, listing);
    PrintedBelow(before, Groups(plan), Pieces(op, l, listing) + [""], Groups(StatementsOf(op, l, listing)));
  }

  lemma {:induction false} FileIsPrinted(ops: seq<Op>, l: Snapshot, listing: seq<ColumnKey>)
    requires forall op :: op in ops ==> TitlesAreLines(op, l, listing)
    ensures Printed(AllLines(FilePieces(ops, l, listing)), Groups(Plan(ops, l, listing)))
  {
    if ops != [] {
      var init, op := ops[..|ops| - 1], ops[|ops| - 1];
      FileIsPrinted(init, l, listing);
      FileMore(ops, l, listing);
      if Pieces(op, l, listing) != [] {
        PrintedMore(FilePieces(init, l, listing), Plan(init, l, listing), op, l, listing);
      }
    }
  }

  /** The statements' texts as the splitter returns them. */
  function StatementTexts(script: seq<Statement>): seq<string> {
    seq(|script|, i requires 0 <= i < |script| => Strip(Render(script[i])))
  }

  lemma TextsOfGroups(script: seq<Statement>)
    ensures Texts(Groups(script)) == StatementTexts(script)
  {
    forall i | 0 <= i < |script| ensures StatementText(Groups(script)[i]) == StatementTexts(script)[i] {
      JoinSplit(Render(script[i]));
    }
  }

  lemma GroupsAreStatements(script: seq<Statement>)
    requires forall s :: s in script ==> IsStatement(SplitLines(Render(s)))
    ensures forall g :: g in Groups(script) ==> IsStatement(g)
  {
    forall i | 0 <= i < |script| ensures IsStatement(Groups(script)[i]) {
      assert script[i] in script;
    }
  }

  /** Splitting the migration file gives exactly the statements of the plan, in order:
      the titles, the header and the blank lines between sections disappear. */
  lemma FileSplitsIntoPlan(header: seq<string>, ops: seq<Op>, l: Snapshot, listing: seq<ColumnKey>)
    requires header != [] && forall i :: 0 <= i < |header| ==> NoNewline(header[i]) && IsJunk(header[i])
    requires forall op :: op in ops ==> TitlesAreLines(op, l, listing)
    requires forall s :: s in Plan(ops, l, listing) ==> IsStatement(SplitLines(Render(s)))
    ensures SplitText(JoinLines(header + FilePieces(ops, l, listing))) == StatementTexts(Plan(ops, l, listing))
  {
    var pieces, plan := FilePieces(ops, l, listing), Plan(ops, l, listing);
    LinesOfLines(header);
    PrintedJunk(header);
    FileIsPrinted(ops, l, listing);
    PrintedBelow(header, [], pieces, Groups(plan));
    assert [] + Groups(plan) == Groups(plan);
    GroupsAreStatements(plan);
    SplitJoin(header + pieces);
    SplitsWhatIsPrinted(AllLines(header + pieces), Groups(plan));
    TextsOfGroups(plan);
  }

  lemma {:induction false} NoPieces(ops: seq<Op>, l: Snapshot, listing: seq<ColumnKey>)
    requires forall op :: op in ops ==> Pieces(op, l, listing) == []
    ensures FilePieces(ops, l, listing) == []
  {
    if ops != [] {
      NoPieces(ops[..|ops| - 1], l, listing);
    }
  }

  /** Against a converged schema only columns are left in the diff. */
  lemma OnlyColumnsDiffer(l: Snapshot, db: Snapshot, v: Visit)
    requires Converged(l, db) && Complete(v, l, db)
    ensures DiffIn(v, l, db) == Flat(v.columns, ColumnRule(l, db))
  {
    FlatOfNothing(v.tables, TableRule(l, db));
    FlatOfNothing(v.indexes, IndexRule(l, db));
    FlatOfNothing(v.routines, RoutineRule(l, db));
    FlatOfNothing(v.triggers, TriggerRule(l, db));
  }

  /** They differ in their defaults, and that has no text. */
  lemma DefaultHasNoPieces(l: Snapshot, db: Snapshot, listing: seq<ColumnKey>, k: ColumnKey, op: Op)
    requires Converged(l, db) && op in ColumnOps(l, db, k)
    ensures Pieces(op, l, listing) == []
  {
    assert op == ChangedColumn(k, l.columns[k], db.columns[k]);
  }

  /** After a migration that converged the generator returns the empty text. */
  lemma SecondFileIsEmpty(l: Snapshot, db: Snapshot, listing: seq<ColumnKey>, v: Visit)
    requires Converged(l, db) && Complete(v, l, db)
    ensures JoinLines(FilePieces(DiffIn(v, l, db), l, listing)) == ""
  {
    OnlyColumnsDiffer(l, db, v);
    var ops := DiffIn(v, l, db);
    forall op | op in ops ensures Pieces(op, l, listing) == [] {
      var k := FromSome(v.columns, ColumnRule(l, db), op);
      DefaultHasNoPieces(l, db, listing, k, op);
    }
    NoPieces(ops, l, listing);
  }

  // ----- Texts that are statements

  lemma {:induction false} NoTagInPlainLine(line: string, i: nat)
    requires i <= |line| && forall k :: 0 <= k < |line| ==> line[k] != '$'
    ensures FirstTag(line, i) == |line|
    decreases |line| - i
  {
    if i < |line| {
      NoTagInPlainLine(line, i + 1);
    }
  }

  /** A one-line text without a dollar sign that starts with a letter and ends with a
      semicolon is a statement, and the splitter returns it as it is. */
  lemma PlainStatement(text: string)
    requires |text| > 1 && NoNewline(text) && EndsWith(text, ';')
    requires 'A' <= text[0] <= 'Z' && forall k :: 0 <= k < |text| ==> text[k] != '$'
    ensures IsStatement(SplitLines(text)) && Strip(text) == text
  {
    SplitOneLine(text);
    NoTagInPlainLine(text, 0);
    assert Strip(text) == text;
    assert [text][..0] == [];
    assert QuoteAfter([text]) == AfterLine(QuoteAfter([]), text);
  }

  /** A line of a statement that opens no quote and does not end the statement. */
  predicate PlainLine(line: string) {
    && NoNewline(line) && line != "" && !IsSpace(line[|line| - 1]) && line[|line| - 1] != ';'
    && forall k :: 0 <= k < |line| ==> line[k] != '$'
  }

  lemma {:induction false} StripLeftKeepsLast(s: string)
    requires s != "" && !IsSpace(s[|s| - 1])
    ensures StripLeft(s) != "" && StripLeft(s)[|StripLeft(s)| - 1] == s[|s| - 1]
  {
    if IsSpace(s[0]) { StripLeftKeepsLast(s[1..]); }
  }

  lemma {:induction false} PlainLinesArePartial(lines: seq<string>)
    requires forall i :: 0 <= i < |lines| ==> PlainLine(lines[i])
    requires lines != [] ==> !IsJunk(lines[0])
    ensures Partial(lines) && QuoteAfter(lines) == Outside
  {
    if lines != [] {
      var init, last := lines[..|lines| - 1], lines[|lines| - 1];
      PlainLinesArePartial(init);
      NoTagInPlainLine(last, 0);
      StripLeftKeepsLast(last);
    }
  }

  /** The lines of a table's column definitions. */
  function DefLines(defs: seq<ColumnDef>): (lines: seq<string>)
    ensures |lines| == |defs|
  {
    if defs == [] then []
    else
      var first := "    " + ColumnText(defs[0].name, defs[0].column);
      [if |defs| == 1 then first else first + ","] + DefLines(defs[1..])
  }

  lemma PlainIndented(indent: string, text: string)
    requires PlainLine(text) && indent == "    "
    ensures PlainLine(indent + text) && PlainLine(indent + text + ",")
  {
    assert forall k :: 0 <= k < 4 ==> indent[k] == ' ';
    assert (indent + text)[|text| + 3] == text[|text| - 1];
  }

  lemma {:induction false} DefLinesArePlain(defs: seq<ColumnDef>)
    requires forall i :: 0 <= i < |defs| ==> PlainLine(ColumnText(defs[i].name, defs[i].column))
    ensures forall i :: 0 <= i < |defs| ==> PlainLine(DefLines(defs)[i])
  {
    if defs != [] {
      DefLinesArePlain(defs[1..]);
      PlainIndented("    ", ColumnText(defs[0].name, defs[0].column));
    }
  }

  lemma IndentedLine(indent: string, text: string)
    requires NoNewline(text) && indent == "    "
    ensures NoNewline(indent + text) && NoNewline(indent + text + ",")
  {
    assert forall k :: 0 <= k < 4 ==> indent[k] == ' ';
  }

  lemma {:induction false} DefTextsSplit(defs: seq<ColumnDef>)
    requires defs != [] && forall i :: 0 <= i < |defs| ==> NoNewline(ColumnText(defs[i].name, defs[i].column))
    ensures SplitLines(DefTexts(defs)) == DefLines(defs)
  {
    var first := "    " + ColumnText(defs[0].name, defs[0].column);
    IndentedLine("    ", ColumnText(defs[0].name, defs[0].column));
    if |defs| == 1 {
      assert defs[1..] == [];
      SplitOneLine(first);
    } else {
      DefTextsSplit(defs[1..]);
      SplitOneLine(first + ",");
      SplitAtNewline(first + ",", DefTexts(defs[1..]));
      assert DefTexts(defs) == (first + ",") + "\n" + DefTexts(defs[1..]);
    }
  }

  function TableHead(t: string): string {
    "CREATE TABLE IF NOT EXISTS " + t + " ("
  }

  lemma HeadIsPlain(t: string)
    requires forall k :: 0 <= k < |t| ==> t[k] != '$' && t[k] != '\n'
    ensures PlainLine(TableHead(t)) && !IsJunk(TableHead(t))
  {
    var prefix, suffix, head := "CREATE TABLE IF NOT EXISTS ", " (", TableHead(t);
    assert forall k :: 0 <= k < |prefix| ==> prefix[k] != '$' && prefix[k] != '\n';
    assert forall k :: 0 <= k < |head| ==>
      head[k] == if k < |prefix| then prefix[k] else if k < |prefix| + |t| then t[k - |prefix|]
      else suffix[k - |prefix| - |t|];
    assert head[0] == 'C' && head[|head| - 1] == '(';
    assert StripLeft(head) == head && StripRight(head) == head;
  }

  predicate Closes(line: string) {
    NoNewline(line) && EndsWith(Strip(line), ';') && forall k :: 0 <= k < |line| ==> line[k] != '$'
  }

  lemma PlainThenClose(lines: seq<string>, last: string)
    requires forall i :: 0 <= i < |lines| ==> PlainLine(lines[i])
    requires lines != [] && !IsJunk(lines[0]) && Closes(last)
    ensures IsStatement(lines + [last])
  {
    PlainLinesArePartial(lines);
    assert (lines + [last])[..|lines|] == lines;
    NoTagInPlainLine(last, 0);
  }

  lemma TableTextIsStatement(text: string, head: string, defs: seq<ColumnDef>, last: string)
    requires defs != [] && forall i :: 0 <= i < |defs| ==> PlainLine(ColumnText(defs[i].name, defs[i].column))
    requires PlainLine(head) && !IsJunk(head) && Closes(last)
    requires text == head + "\n" + (DefTexts(defs) + "\n" + last)
    ensures IsStatement(SplitLines(text))
  {
    DefLinesArePlain(defs);
    var lines := [head] + DefLines(defs);
    assert forall i :: 0 < i < |lines| ==> lines[i] == DefLines(defs)[i - 1];
    PlainThenClose(lines, last);
    TableLines(head, defs, last);
  }

  /** The printed definition of a table is one statement, over several lines, when its name
      and its columns' texts are plain. */
  lemma TableStatement(t: string, defs: seq<ColumnDef>)
    requires defs != [] && forall i :: 0 <= i < |defs| ==> PlainLine(ColumnText(defs[i].name, defs[i].column))
    requires forall k :: 0 <= k < |t| ==> t[k] != '$' && t[k] != '\n'
    ensures IsStatement(SplitLines(Render(CreateTableIfNotExists(t, defs))))
  {
    var last := ClosingLine();
    TableText(t, defs, last);
    HeadIsPlain(t);
    TableTextIsStatement(Render(CreateTableIfNotExists(t, defs)), TableHead(t), defs, last);
  }

  lemma ClosingLine() returns (last: string)
    ensures Closes(last) && last == ");"
  {
    last := ");";
    assert Strip(last) == last;
  }

  lemma TableText(t: string, defs: seq<ColumnDef>, last: string)
    requires last == ");"
    ensures Render(CreateTableIfNotExists(t, defs)) == TableHead(t) + "\n" + (DefTexts(defs) + "\n" + last)
  {
    Regroup("CREATE TABLE IF NOT EXISTS " + t, DefTexts(defs), last);
  }

  lemma Regroup(a: string, b: string, last: string)
    requires last == ");"
    ensures a + " (\n" + b + "\n);" == a + " (" + "\n" + (b + "\n" + last)
  {
    assert " (\n" == " (" + "\n" && "\n);" == "\n" + last;
  }

  lemma TableLines(head: string, defs: seq<ColumnDef>, last: string)
    requires NoNewline(head) && NoNewline(last) && defs != []
    requires forall i :: 0 <= i < |defs| ==> NoNewline(ColumnText(defs[i].name, defs[i].column))
    ensures SplitLines(head + "\n" + (DefTexts(defs) + "\n" + last)) == [head] + DefLines(defs) + [last]
  {
    SplitAtNewline(head, DefTexts(defs) + "\n" + last);
    SplitAtNewline(DefTexts(defs), last);
    SplitOneLine(head);
    SplitOneLine(last);
    DefTextsSplit(defs);
  }

  /** The usual shape of a function: head lines, a line that opens the quote, a body
      that may contain any `;`, blank or comment lines, and the closing tag. */
  lemma {:induction false} QuotedBodyStaysOpen(before: seq<string>, tag: string, body: seq<string>)
    requires Partial(before) && before != [] && QuoteAfter(before) == Inside(tag)
    requires forall i :: 0 <= i < |body| ==> Count(body[i], tag, 0) % 2 == 0
    ensures Partial(before + body) && QuoteAfter(before + body) == Inside(tag)
  {
    if body == [] {
      assert before + body == before;
    } else {
      var init := body[..|body| - 1];
      QuotedBodyStaysOpen(before, tag, init);
      assert (before + body)[..|before + body| - 1] == before + init;
    }
  }

  lemma FunctionIsStatement(before: seq<string>, tag: string, body: seq<string>, close: string)
    requires Partial(before) && before != [] && QuoteAfter(before) == Inside(tag)
    requires forall i :: 0 <= i < |body| ==> Count(body[i], tag, 0) % 2 == 0
    requires Count(close, tag, 0) % 2 == 1 && EndsWith(Strip(close), ';')
    ensures IsStatement(before + body + [close])
  {
    QuotedBodyStaysOpen(before, tag, body);
    var lines := before + body + [close];
    assert lines[..|lines| - 1] == before + body;
  }
}
