/** What a database reads in the text of a migration statement, word by word.

    The texts of indexes, functions and triggers are those that the catalog printed; what
    the database makes of them, and what a default needs, is the database's own business
    and a parameter here. */
module SqlReader {
  import opened Options
  import opened Schema
  import opened SchemaDiff
  import opened TextLines
  import opened SqlSplit
  import opened SqlScript
  import opened Migration

  datatype Catalog = Catalog(needs: string -> set<Need>, definitions: map<string, Statement>)

  // ----- Words

  /** Where the character is first, or the end of the text. */
  function FirstOf(s: string, c: char): (i: nat)
    ensures i <= |s|
  {
    if s == "" || s[0] == c then 0 else 1 + FirstOf(s[1..], c)
  }

  /** The rest of the text after a prefix, if it starts with that. */
  function After(s: string, prefix: string): Option<string> {
    if prefix <= s then Some(s[|prefix|..]) else None
  }

  lemma {:induction false} FirstAfter(a: string, c: char, rest: string)
    requires c !in a && (rest == "" || rest[0] == c)
    ensures FirstOf(a + rest, c) == |a|
  {
    if a == "" {
      assert a + rest == rest;
    } else {
      assert (a + rest)[1..] == a[1..] + rest;
      FirstAfter(a[1..], c, rest);
    }
  }

  lemma AfterPrefix(prefix: string, rest: string)
    ensures After(prefix + rest, prefix) == Some(rest)
  {
  }

  lemma NotAfter(s: string, prefix: string, k: nat)
    requires k < |s| && k < |prefix| && s[k] != prefix[k]
    ensures After(s, prefix) == None
  {
  }

  /** All results, if there is no failure among them. */
  function All<T>(results: seq<Option<T>>): Option<seq<T>> {
    if results == [] then Some([])
    else
      match results[0]
      case None => None
      case Some(first) =>
        match All(results[1..])
        case None => None
        case Some(rest) => Some([first] + rest)
  }

  lemma {:induction false} AllSucceed<T>(results: seq<Option<T>>, values: seq<T>)
    requires |results| == |values| && forall i :: 0 <= i < |results| ==> results[i] == Some(values[i])
    ensures All(results) == Some(values)
  {
    if results != [] {
      AllSucceed(results[1..], values[1..]);
      assert [values[0]] + values[1..] == values;
    }
  }

  // ----- Numbers and types

  predicate IsDigits(s: string) {
    s != "" && forall i :: 0 <= i < |s| ==> '0' <= s[i] <= '9'
  }

  function ValueOf(s: string): nat
    requires IsDigits(s)
  {
    var last := s[|s| - 1] as int - '0' as int;
    if |s| == 1 then last else 10 * ValueOf(s[..|s| - 1]) + last
  }

  lemma {:induction false} DigitsRead(n: nat)
    ensures IsDigits(Digits(n)) && ValueOf(Digits(n)) == n
  {
    if n >= 10 {
      DigitsRead(n / 10);
      assert Digits(n)[..|Digits(n)| - 1] == Digits(n / 10);
    }
  }

  datatype TypeName = TypeName(udt: string, length: nat)

  /** A name, and a length in parentheses if there is one. */
  function ReadType(s: string): Option<TypeName> {
    var i := FirstOf(s, '(');
    if i == |s| then Some(TypeName(s, 0))
    else if i + 2 < |s| && s[|s| - 1] == ')' && IsDigits(s[i + 1..|s| - 1]) then
      Some(TypeName(s[..i], ValueOf(s[i + 1..|s| - 1])))
    else None
  }

  lemma TypeReads(udt: string, length: nat)
    requires '(' !in udt
    ensures ReadType(TypeText(udt, length)) == Some(TypeName(udt, length))
  {
    if length == 0 {
      FirstAfter(udt, '(', "");
      assert udt + "" == udt;
    } else {
      var digits := Digits(length);
      DigitsRead(length);
      var rest := "(" + digits + ")";
      var s := udt + rest;
      assert TypeText(udt, length) == s;
      FirstAfter(udt, '(', rest);
      assert s[..|udt|] == udt && s[|udt| + 1..|s| - 1] == digits && s[|s| - 1] == ')';
    }
  }

  // ----- Columns

  /** A name, a type, and what follows the type. */
  function ReadColumn(cat: Catalog, s: string): Option<ColumnDef> {
    var i := FirstOf(s, ' ');
    if i == |s| then None
    else
      var rest := s[i + 1..];
      var j := FirstOf(rest, ' ');
      match ReadType(rest[..j])
      case None => None
      case Some(t) => ReadOptions(cat, s[..i], t, rest[j..])
  }

  /** NOT NULL and DEFAULT. */
  function ReadOptions(cat: Catalog, name: string, t: TypeName, s: string): Option<ColumnDef> {
    var required := After(s, " NOT NULL");
    var rest := if required.Some? then required.value else s;
    if rest == "" then Some(ColumnDef(name, Column(t.udt, t.length, "", required.None?, "", cat.needs(""))))
    else
      match After(rest, " DEFAULT ")
      case None => None
      case Some(default) =>
        Some(ColumnDef(name, Column(t.udt, t.length, "", required.None?, default, cat.needs(default))))
  }

  /** Names without spaces and types without parentheses; nothing is lost in printing, and
      the default needs what the database says. */
  predicate PlainColumn(cat: Catalog, name: string, c: Column) {
    && ' ' !in name && ' ' !in c.udt && '(' !in c.udt
    && NoNewline(ColumnText(name, c)) && c.modifier == "" && c.uses == cat.needs(c.default)
  }

  /** What follows the type. */
  function OptionsText(c: Column): string {
    (if c.nullable then "" else " NOT NULL") + if c.default == "" then "" else " DEFAULT " + c.default
  }

  lemma OptionsRead(cat: Catalog, name: string, c: Column, s: string, notNull: string, default: string)
    requires notNull == " NOT NULL" && default == " DEFAULT "
    requires c.modifier == "" && c.uses == cat.needs(c.default)
    requires s == (if c.nullable then "" else notNull) + if c.default == "" then "" else default + c.default
    ensures ReadOptions(cat, name, TypeName(c.udt, c.length), s) == Some(ColumnDef(name, c))
  {
    var rest := if c.default == "" then "" else default + c.default;
    if c.nullable {
      assert s == rest;
      if c.default != "" { NotAfter(s, notNull, 1); } else { assert s == ""; }
    } else {
      AfterPrefix(notNull, rest);
    }
    if c.default != "" { AfterPrefix(default, c.default); }
  }

  lemma NoSpaceInDigits(n: nat)
    ensures ' ' !in Digits(n)
  {
    DigitsRead(n);
  }

  /** The text of a column: its name, its type, and options that are read back. */
  lemma ColumnParts(cat: Catalog, name: string, c: Column, t: string) returns (options: string)
    requires t == TypeText(c.udt, c.length) && c.modifier == "" && c.uses == cat.needs(c.default)
    ensures ColumnText(name, c) == name + ([' '] + (t + options))
    ensures options == "" || options[0] == ' '
    ensures ReadOptions(cat, name, TypeName(c.udt, c.length), options) == Some(ColumnDef(name, c))
  {
    options := OptionsText(c);
    ColumnTextParts(name, c, t, options);
    OptionsStart(options, c);
    OptionsRead(cat, name, c, options, " NOT NULL", " DEFAULT ");
  }

  lemma ReadsParts(cat: Catalog, name: string, t: string, options: string, named: TypeName)
    requires ' ' !in name && ' ' !in t && (options == "" || options[0] == ' ') && ReadType(t) == Some(named)
    ensures ReadColumn(cat, name + ([' '] + (t + options))) == ReadOptions(cat, name, named, options)
  {
    var rest := t + options;
    var s := name + ([' '] + rest);
    FirstAfter(name, ' ', [' '] + rest);
    assert s[..|name|] == name && s[|name| + 1..] == rest;
    FirstAfter(t, ' ', options);
    assert rest[..|t|] == t && rest[|t|..] == options;
  }

  lemma NoSpaceInType(udt: string, length: nat)
    requires ' ' !in udt
    ensures ' ' !in TypeText(udt, length)
  {
    NoSpaceInDigits(length);
  }

  lemma ColumnReads(cat: Catalog, name: string, c: Column)
    requires PlainColumn(cat, name, c)
    ensures ReadColumn(cat, ColumnText(name, c)) == Some(ColumnDef(name, c))
  {
    var t := TypeText(c.udt, c.length);
    var options := ColumnParts(cat, name, c, t);
    NoSpaceInType(c.udt, c.length);
    TypeReads(c.udt, c.length);
    ReadsParts(cat, name, t, options, TypeName(c.udt, c.length));
  }

  lemma OptionsStart(options: string, c: Column)
    requires options == OptionsText(c)
    ensures options == "" || options[0] == ' '
  {
  }

  lemma ColumnTextParts(name: string, c: Column, t: string, options: string)
    requires t == TypeText(c.udt, c.length)
    requires options == OptionsText(c)
    ensures ColumnText(name, c) == name + (" " + (t + options))
  {
    var a := if c.nullable then "" else " NOT NULL";
    var b := if c.default == "" then "" else " DEFAULT " + c.default;
    assert name + " " + t + a + b == name + (" " + (t + (a + b)));
  }

  // ----- Statements

  function ReadAlter(cat: Catalog, s: string): Option<Statement> {
    var i := FirstOf(s, ' ');
    var table, rest := s[..i], s[i..];
    match After(rest, " ADD COLUMN IF NOT EXISTS ")
    case Some(text) =>
      (match ReadColumn(cat, text)
       case None => None
       case Some(def) => Some(AddColumnIfNotExists(ColumnKey(table, def.name), def.column)))
    case None =>
      match After(rest, " ALTER COLUMN ")
      case None => None
      case Some(text) =>
        var j := FirstOf(text, ' ');
        ReadChange(ColumnKey(table, text[..j]), text[j..])
  }

  function ReadChange(k: ColumnKey, s: string): Option<Statement> {
    if s == " DROP NOT NULL" then Some(DropNotNull(k))
    else if s == " SET NOT NULL" then Some(SetNotNull(k))
    else
      match After(s, " TYPE ")
      case None => None
      case Some(text) =>
        match ReadType(text)
        case None => None
        case Some(t) => Some(AlterType(k, t.udt, t.length))
  }

  /** A line of a table definition, with a comma if others follow. */
  function ReadLine(cat: Catalog, line: string, last: bool): Option<ColumnDef> {
    if !last && !EndsWith(line, ',') then None
    else
      match After(if last then line else line[..|line| - 1], "    ")
      case None => None
      case Some(column) => ReadColumn(cat, column)
  }

  function ReadDefs(cat: Catalog, lines: seq<string>): Option<seq<ColumnDef>> {
    All(seq(|lines|, i requires 0 <= i < |lines| => ReadLine(cat, lines[i], i == |lines| - 1)))
  }

  function ReadTable(cat: Catalog, s: string): Option<Statement> {
    var i := FirstOf(s, ' ');
    match After(s[i..], " (\n")
    case None => None
    case Some(text) =>
      if |text| < 2 || text[|text| - 2..] != "\n)" then None
      else
        match ReadDefs(cat, SplitLines(text[..|text| - 2]))
        case None => None
        case Some(defs) => Some(CreateTableIfNotExists(s[..i], defs))
  }

  function ReadDropTrigger(s: string): Option<Statement> {
    var i := FirstOf(s, ' ');
    match After(s[i..], " ON ")
    case None => None
    case Some(table) => Some(DropTriggerIfExists(TriggerKey(table, s[..i])))
  }

  /** What the database understands. */
  function Read(cat: Catalog, text: string): Option<Statement> {
    if !EndsWith(text, ';') then None else ReadBody(cat, text[..|text| - 1])
  }

  function ReadBody(cat: Catalog, s: string): Option<Statement> {
    match After(s, "ALTER TABLE ")
    case Some(rest) => ReadAlter(cat, rest)
    case None =>
      match After(s, "DROP INDEX IF EXISTS ")
      case Some(rest) => Some(DropIndexIfExists(rest))
      case None =>
        match After(s, "DROP TRIGGER IF EXISTS ")
        case Some(rest) => ReadDropTrigger(rest)
        case None =>
          match After(s, "CREATE TABLE IF NOT EXISTS ")
          case Some(rest) => ReadTable(cat, rest)
          case None => if s in cat.definitions then Some(cat.definitions[s]) else None
  }

  // ----- Reading undoes printing

  lemma ChangeReads(k: ColumnKey, udt: string, length: nat, text: string, word: string)
    requires '(' !in udt && text == TypeText(udt, length) && word == " TYPE "
    ensures ReadChange(k, word + text) == Some(AlterType(k, udt, length))
  {
    assert (word + text)[1] == 'T' && " DROP NOT NULL"[1] == 'D' && " SET NOT NULL"[1] == 'S';
    AfterPrefix(word, text);
    TypeReads(udt, length);
  }

  lemma AlterReads(cat: Catalog, k: ColumnKey, change: string)
    requires ' ' !in k.table && ' ' !in k.name && change != "" && change[0] == ' '
    ensures ReadAlter(cat, k.table + " ALTER COLUMN " + k.name + change) == ReadChange(k, change)
  {
    var word, text := " ALTER COLUMN ", k.name + change;
    var s, rest := k.table + word + k.name + change, word + text;
    assert s == k.table + rest;
    FirstAfter(k.table, ' ', rest);
    assert s[..|k.table|] == k.table && s[|k.table|..] == rest;
    assert rest[2] == 'L';
    NotAfter(rest, " ADD COLUMN IF NOT EXISTS ", 2);
    AfterPrefix(word, text);
    FirstAfter(k.name, ' ', change);
    assert text[..|k.name|] == k.name && text[|k.name|..] == change;
  }

  lemma AddReads(cat: Catalog, k: ColumnKey, c: Column)
    requires ' ' !in k.table && PlainColumn(cat, k.name, c)
    ensures ReadAlter(cat, k.table + " ADD COLUMN IF NOT EXISTS " + ColumnText(k.name, c)) ==
            Some(AddColumnIfNotExists(k, c))
  {
    var word, text := " ADD COLUMN IF NOT EXISTS ", ColumnText(k.name, c);
    var s, rest := k.table + word + text, word + text;
    assert s == k.table + rest;
    FirstAfter(k.table, ' ', rest);
    assert s[..|k.table|] == k.table && s[|k.table|..] == rest;
    AfterPrefix(word, text);
    ColumnReads(cat, k.name, c);
  }

  lemma DropTriggerReads(k: TriggerKey)
    requires ' ' !in k.name
    ensures ReadDropTrigger(k.name + " ON " + k.table) == Some(DropTriggerIfExists(k))
  {
    var s, rest := k.name + " ON " + k.table, " ON " + k.table;
    assert s == k.name + rest;
    FirstAfter(k.name, ' ', rest);
    assert s[..|k.name|] == k.name && s[|k.name|..] == rest;
    AfterPrefix(" ON ", k.table);
  }

  lemma LineReads(cat: Catalog, text: string, indent: string)
    requires indent == "    "
    ensures ReadLine(cat, indent + text, true) == ReadColumn(cat, text)
    ensures ReadLine(cat, indent + text + ",", false) == ReadColumn(cat, text)
  {
    var line := indent + text;
    AfterPrefix(indent, text);
    assert (line + ",")[..|line + ","| - 1] == line;
  }

  lemma DefLinesStart(defs: seq<ColumnDef>)
    requires defs != []
    ensures var line := "    " + ColumnText(defs[0].name, defs[0].column);
            DefLines(defs)[0] == if |defs| == 1 then line else line + ","
    ensures DefLines(defs)[1..] == DefLines(defs[1..])
  {
  }

  lemma {:induction false} TailsAt(tails: seq<seq<string>>, i: nat)
    requires i < |tails| && tails[i] != []
    requires forall j :: 0 <= j < i ==> tails[j] != [] && tails[j][1..] == tails[j + 1]
    ensures |tails[0]| == i + |tails[i]| && tails[0][i] == tails[i][0]
  {
    if i > 0 {
      TailsAt(tails[1..], i - 1);
      assert tails[0][1..][i - 1] == tails[0][i];
    }
  }

  lemma DefLinesAt(defs: seq<ColumnDef>, i: nat)
    requires i < |defs|
    ensures DefLines(defs)[i] == DefLines(defs[i..])[0]
  {
    var tails := seq(|defs|, j requires 0 <= j < |defs| => DefLines(defs[j..]));
    forall j | 0 <= j < i ensures tails[j] != [] && tails[j][1..] == tails[j + 1] {
      DefLinesStart(defs[j..]);
      assert defs[j..][1..] == defs[j + 1..];
    }
    TailsAt(tails, i);
    assert defs[0..] == defs;
  }

  lemma DefsRead(cat: Catalog, defs: seq<ColumnDef>)
    requires forall i :: 0 <= i < |defs| ==> PlainColumn(cat, defs[i].name, defs[i].column)
    ensures ReadDefs(cat, DefLines(defs)) == Some(defs)
  {
    forall i | 0 <= i < |defs| ensures ReadLine(cat, DefLines(defs)[i], i == |defs| - 1) == Some(defs[i]) {
      DefLineReads(cat, defs, i, "    ");
    }
    var lines := DefLines(defs);
    AllSucceed(seq(|lines|, i requires 0 <= i < |lines| => ReadLine(cat, lines[i], i == |lines| - 1)), defs);
  }

  lemma DefLineReads(cat: Catalog, defs: seq<ColumnDef>, i: nat, indent: string)
    requires i < |defs| && PlainColumn(cat, defs[i].name, defs[i].column) && indent == "    "
    ensures ReadLine(cat, DefLines(defs)[i], i == |defs| - 1) == Some(defs[i])
  {
    DefLinesAt(defs, i);
    DefLinesStart(defs[i..]);
    ColumnReads(cat, defs[i].name, defs[i].column);
    LineReads(cat, ColumnText(defs[i].name, defs[i].column), indent);
  }

  lemma TableTextReads(cat: Catalog, t: string, texts: string, s: string, open: string, close: string)
    requires ' ' !in t && open == " (\n" && close == "\n)" && s == t + open + texts + close
    ensures ReadTable(cat, s) ==
            match ReadDefs(cat, SplitLines(texts))
            case None => None
            case Some(defs) => Some(CreateTableIfNotExists(t, defs))
  {
    var text := texts + close;
    assert s == t + (open + text);
    FirstAfter(t, ' ', open + text);
    assert s[..|t|] == t && s[|t|..] == open + text;
    AfterPrefix(open, text);
    assert text[|text| - 2..] == close && text[..|text| - 2] == texts;
  }

  lemma TableReads(cat: Catalog, t: string, defs: seq<ColumnDef>, s: string)
    requires ' ' !in t && defs != [] && s == t + " (\n" + DefTexts(defs) + "\n)"
    requires forall i :: 0 <= i < |defs| ==> PlainColumn(cat, defs[i].name, defs[i].column)
    ensures ReadTable(cat, s) == Some(CreateTableIfNotExists(t, defs))
  {
    TableTextReads(cat, t, DefTexts(defs), s, " (\n", "\n)");
    DefTextsSplit(defs);
    DefsRead(cat, defs);
  }

  /** The text was printed by the catalog, and the database knows it. */
  predicate Known(cat: Catalog, text: string, s: Statement) {
    "CREATE " <= text && !("CREATE TABLE" <= text) && text in cat.definitions && cat.definitions[text] == s
  }

  /** Names and columns are plain, and definitions are known. */
  predicate Readable(cat: Catalog, s: Statement) {
    match s
    case CreateTableIfNotExists(t, defs) =>
      ' ' !in t && defs != [] && forall i :: 0 <= i < |defs| ==> PlainColumn(cat, defs[i].name, defs[i].column)
    case AddColumnIfNotExists(k, c) => ' ' !in k.table && PlainColumn(cat, k.name, c)
    case AlterType(k, udt, _) => ' ' !in k.table && ' ' !in k.name && '(' !in udt
    case DropNotNull(k) => ' ' !in k.table && ' ' !in k.name
    case SetNotNull(k) => ' ' !in k.table && ' ' !in k.name
    case DropIndexIfExists(_) => true
    case CreateIndex(_, i) => Known(cat, i.definition, s)
    case CreateOrReplaceRoutine(_, f) =>
      "CREATE OR REPLACE " <= f.definition && !EndsWith(StripRight(f.definition), ';') &&
      Known(cat, StripRight(f.definition), s)
    case DropTriggerIfExists(k) => ' ' !in k.name
    case CreateTrigger(_, g) => Known(cat, g.definition, s)
  }

  lemma ReadWithoutEnd(cat: Catalog, s: string)
    ensures Read(cat, s + ";") == ReadBody(cat, s)
  {
    assert (s + ";")[..|s + ";"| - 1] == s;
  }

  lemma KnownReads(cat: Catalog, text: string, s: Statement)
    requires Known(cat, text, s)
    ensures Read(cat, text + ";") == Some(s)
  {
    ReadWithoutEnd(cat, text);
    assert text[0] == 'C' && text[1] == 'R';
    NotAfter(text, "ALTER TABLE ", 0);
    NotAfter(text, "DROP INDEX IF EXISTS ", 0);
    NotAfter(text, "DROP TRIGGER IF EXISTS ", 0);
    LongerPrefix("CREATE TABLE", "CREATE TABLE IF NOT EXISTS ", text);
  }

  lemma LongerPrefix(prefix: string, longer: string, text: string)
    requires prefix <= longer && !(prefix <= text)
    ensures After(text, longer) == None
  {
  }

  /** A known definition has nothing to strip around it. */
  lemma KnownIsStripped(cat: Catalog, text: string, s: Statement)
    requires Known(cat, text, s)
    ensures Strip(text + ";") == text + ";"
  {
    Stripped(text + ";");
  }

  lemma Stripped(s: string)
    requires s != "" && !IsSpace(s[0]) && !IsSpace(s[|s| - 1])
    ensures Strip(s) == s
  {
    assert StripLeft(s) == s;
  }

  lemma RoutineReads(cat: Catalog, s: Statement)
    requires s.CreateOrReplaceRoutine? && Readable(cat, s)
    ensures Render(s) == StripRight(s.routine.definition) + ";"
  {
    var d, text := s.routine.definition, StripRight(s.routine.definition);
    assert StartsWithIgnoringCase(d, "CREATE OR REPLACE ");
  }

  /** The statement is read back from its text, which has nothing to strip around it. */
  predicate ComesBack(cat: Catalog, s: Statement) {
    Read(cat, Render(s)) == Some(s) && Strip(Render(s)) == Render(s)
  }

  /** For every statement with plain names and known definitions. */
  lemma ReadsBack(cat: Catalog, s: Statement)
    requires Readable(cat, s)
    ensures ComesBack(cat, s)
  {
    match s {
      case CreateTableIfNotExists(t, defs) => CreateTableReads(cat, s, t, defs);
      case AddColumnIfNotExists(k, c) => AddColumnReads(cat, s, k, c);
      case AlterType(k, udt, length) => AlterTypeReads(cat, s, k, udt, length);
      case DropNotNull(k) => NullReads(cat, s, k);
      case SetNotNull(k) => NullReads(cat, s, k);
      case DropIndexIfExists(n) => DropIndexReads(cat, n, Render(s));
      case DropTriggerIfExists(k) => DropsTrigger(cat, k, Render(s));
      case _ => DefinitionReads(cat, s);
    }
  }

  lemma DefinitionReads(cat: Catalog, s: Statement)
    requires Readable(cat, s) && (s.CreateIndex? || s.CreateOrReplaceRoutine? || s.CreateTrigger?)
    ensures ComesBack(cat, s)
  {
    var text := if s.CreateIndex? then s.def.definition
                else if s.CreateTrigger? then s.body.definition
                else StripRight(s.routine.definition);
    if s.CreateOrReplaceRoutine? { RoutineReads(cat, s); }
    KnownReads(cat, text, s);
    KnownIsStripped(cat, text, s);
  }

  lemma AddColumnReads(cat: Catalog, s: Statement, k: ColumnKey, c: Column)
    requires s == AddColumnIfNotExists(k, c) && Readable(cat, s)
    ensures ComesBack(cat, s)
  {
    AddReads(cat, k, c);
    Regrouped("ALTER TABLE ", k.table, " ADD COLUMN IF NOT EXISTS ", ColumnText(k.name, c), "", ";");
    AlterTableReads(cat, k.table + " ADD COLUMN IF NOT EXISTS " + ColumnText(k.name, c), Render(s), "ALTER TABLE ");
  }

  lemma AlterTypeReads(cat: Catalog, s: Statement, k: ColumnKey, udt: string, length: nat)
    requires s == AlterType(k, udt, length) && Readable(cat, s)
    ensures ComesBack(cat, s)
  {
    var named := TypeText(udt, length);
    ChangeReads(k, udt, length, named, " TYPE ");
    assert Render(s) == "ALTER TABLE " + k.table + " ALTER COLUMN " + k.name + " TYPE " + named + ";";
    LastTwo("ALTER TABLE " + k.table + " ALTER COLUMN " + k.name, " TYPE ", named, ";");
    AlterColumnReads(cat, k, " TYPE " + named, Render(s), "ALTER TABLE ", " ALTER COLUMN ");
  }

  lemma LastTwo(a: string, b: string, c: string, d: string)
    ensures a + b + c + d == a + (b + c) + d
  {
  }

  lemma NullReads(cat: Catalog, s: Statement, k: ColumnKey)
    requires (s == DropNotNull(k) || s == SetNotNull(k)) && Readable(cat, s)
    ensures ComesBack(cat, s)
  {
    if s.DropNotNull? {
      NullChangeReads(cat, s, k, " DROP NOT NULL");
    } else {
      NullChangeReads(cat, s, k, " SET NOT NULL");
    }
  }

  lemma NullChangeReads(cat: Catalog, s: Statement, k: ColumnKey, change: string)
    requires (s == DropNotNull(k) || s == SetNotNull(k)) && Readable(cat, s)
    requires change == if s.DropNotNull? then " DROP NOT NULL" else " SET NOT NULL"
    ensures ComesBack(cat, s)
  {
    NullText(s, k, change);
    NullChange(k, change, s);
    AlterColumnReads(cat, k, change, Render(s), "ALTER TABLE ", " ALTER COLUMN ");
  }

  lemma NullChange(k: ColumnKey, change: string, s: Statement)
    requires s == DropNotNull(k) || s == SetNotNull(k)
    requires change == if s.DropNotNull? then " DROP NOT NULL" else " SET NOT NULL"
    ensures ReadChange(k, change) == Some(s) && change != "" && change[0] == ' '
  {
    assert change[1] == if s.DropNotNull? then 'D' else 'S';
  }

  lemma NullText(s: Statement, k: ColumnKey, change: string)
    requires s == DropNotNull(k) || s == SetNotNull(k)
    requires change == if s.DropNotNull? then " DROP NOT NULL" else " SET NOT NULL"
    ensures Render(s) == "ALTER TABLE " + k.table + " ALTER COLUMN " + k.name + change + ";"
  {
    if s.DropNotNull? {
      assert " DROP NOT NULL;" == change + ";";
    } else {
      assert " SET NOT NULL;" == change + ";";
    }
  }

  lemma Regrouped(a: string, b: string, c: string, d: string, e: string, f: string)
    ensures a + b + c + d + e + f == a + (b + c + d + e) + f
    ensures e == "" ==> a + b + c + d + f == a + (b + c + d) + f
  {
  }

  lemma AlterTableReads(cat: Catalog, rest: string, text: string, word: string)
    requires word == "ALTER TABLE " && text == word + rest + ";"
    ensures Read(cat, text) == ReadAlter(cat, rest) && Strip(text) == text
  {
    AfterPrefix(word, rest);
    ReadWithoutEnd(cat, word + rest);
    Stripped(text);
  }

  lemma AlterColumnReads(cat: Catalog, k: ColumnKey, change: string, text: string, word: string, next: string)
    requires ' ' !in k.table && ' ' !in k.name && change != "" && change[0] == ' '
    requires word == "ALTER TABLE " && next == " ALTER COLUMN "
    requires text == word + k.table + next + k.name + change + ";"
    ensures Read(cat, text) == ReadChange(k, change) && Strip(text) == text
  {
    AlterReads(cat, k, change);
    Regrouped(word, k.table, next, k.name, change, ";");
    AlterTableReads(cat, k.table + next + k.name + change, text, word);
  }

  lemma DropIndexReads(cat: Catalog, n: string, text: string)
    requires text == "DROP INDEX IF EXISTS " + n + ";"
    ensures Read(cat, text) == Some(DropIndexIfExists(n)) && Strip(text) == text
  {
    var s := "DROP INDEX IF EXISTS " + n;
    assert s[0] == 'D';
    NotAfter(s, "ALTER TABLE ", 0);
    AfterPrefix("DROP INDEX IF EXISTS ", n);
    ReadWithoutEnd(cat, s);
    Stripped(text);
  }

  lemma DropsTrigger(cat: Catalog, k: TriggerKey, text: string)
    requires ' ' !in k.name && text == "DROP TRIGGER IF EXISTS " + k.name + " ON " + k.table + ";"
    ensures Read(cat, text) == Some(DropTriggerIfExists(k)) && Strip(text) == text
  {
    var word, rest := "DROP TRIGGER IF EXISTS ", k.name + " ON " + k.table;
    var s := word + rest;
    assert s[0] == 'D' && s[5] == 'T' && text == s + ";";
    NotAfter(s, "ALTER TABLE ", 0);
    NotAfter(s, "DROP INDEX IF EXISTS ", 5);
    AfterPrefix(word, rest);
    DropTriggerReads(k);
    ReadWithoutEnd(cat, s);
    Stripped(text);
  }

  lemma CreateTableReads(cat: Catalog, s: Statement, t: string, defs: seq<ColumnDef>)
    requires s == CreateTableIfNotExists(t, defs) && Readable(cat, s)
    ensures Read(cat, Render(s)) == Some(s) && Strip(Render(s)) == Render(s)
  {
    var rest := t + " (\n" + DefTexts(defs) + "\n)";
    CreatesTable(cat, rest, "CREATE TABLE IF NOT EXISTS " + rest + ";");
    TableReads(cat, t, defs, rest);
    TableTextIs(t, DefTexts(defs), rest);
  }

  lemma TableTextIs(t: string, texts: string, rest: string)
    requires rest == t + " (\n" + texts + "\n)"
    ensures "CREATE TABLE IF NOT EXISTS " + t + " (\n" + texts + "\n);" == "CREATE TABLE IF NOT EXISTS " + rest + ";"
  {
    assert "\n);" == "\n)" + ";";
  }

  lemma CreatesTable(cat: Catalog, rest: string, text: string)
    requires text == "CREATE TABLE IF NOT EXISTS " + rest + ";"
    ensures Read(cat, text) == ReadTable(cat, rest) && Strip(text) == text
  {
    var s := "CREATE TABLE IF NOT EXISTS " + rest;
    assert s[0] == 'C';
    NotAfter(s, "ALTER TABLE ", 0);
    NotAfter(s, "DROP INDEX IF EXISTS ", 0);
    NotAfter(s, "DROP TRIGGER IF EXISTS ", 0);
    AfterPrefix("CREATE TABLE IF NOT EXISTS ", rest);
    ReadWithoutEnd(cat, s);
    Stripped(text);
  }

  // ----- The file, split, read and executed

  function ReadAll(cat: Catalog, texts: seq<string>): Option<seq<Statement>> {
    All(seq(|texts|, i requires 0 <= i < |texts| => Read(cat, texts[i])))
  }

  /** Reading undoes the printing of a whole script. */
  lemma ScriptReads(cat: Catalog, script: seq<Statement>)
    requires forall s :: s in script ==> Readable(cat, s)
    ensures ReadAll(cat, StatementTexts(script)) == Some(script)
  {
    var texts := StatementTexts(script);
    forall i | 0 <= i < |script| ensures Read(cat, texts[i]) == Some(script[i]) {
      assert script[i] in script;
      ReadsBack(cat, script[i]);
    }
    AllSucceed(seq(|texts|, i requires 0 <= i < |texts| => Read(cat, texts[i])), script);
  }

  /** `apply`: the text is split, and the database reads and executes each statement. */
  function Apply(cat: Catalog, db: Snapshot, sql: string): Option<Snapshot> {
    match ReadAll(cat, SplitText(sql))
    case None => None
    case Some(script) => ExecuteAll(db, script)
  }

  /** The file that the program writes for the difference of two schemas. */
  function File(header: seq<string>, l: Snapshot, r: Snapshot, listing: seq<ColumnKey>, v: Visit): string {
    JoinLines(header + FilePieces(DiffIn(v, l, r), l, listing))
  }

  /** The header is comments, names in titles are on one line, and every statement is one for
      the splitter and for the reader. */
  ghost predicate Writable(cat: Catalog, header: seq<string>, l: Snapshot, r: Snapshot, listing: seq<ColumnKey>,
                           v: Visit)
  {
    && header != [] && (forall i :: 0 <= i < |header| ==> NoNewline(header[i]) && IsJunk(header[i]))
    && (forall op :: op in DiffIn(v, l, r) ==> TitlesAreLines(op, l, listing))
    && (forall s :: s in Plan(DiffIn(v, l, r), l, listing) ==> IsStatement(SplitLines(Render(s))) && Readable(cat, s))
  }

  /** Applying the file is executing the plan. */
  lemma FileIsPlan(cat: Catalog, header: seq<string>, l: Snapshot, r: Snapshot, listing: seq<ColumnKey>, v: Visit)
    requires Writable(cat, header, l, r, listing, v)
    ensures Apply(cat, r, File(header, l, r, listing, v)) == ExecuteAll(r, Plan(DiffIn(v, l, r), l, listing))
  {
    FileSplitsIntoPlan(header, DiffIn(v, l, r), l, listing);
    ScriptReads(cat, Plan(DiffIn(v, l, r), l, listing));
  }

  /** The whole way from two schemas over the text of the file to the migrated database: it
      converges exactly when the migration is feasible, and then reaches the merged schema. */
  lemma FileConvergesIff(cat: Catalog, header: seq<string>, l: Snapshot, r: Snapshot, listing: seq<ColumnKey>, v: Visit)
    requires Unambiguous(l.routines) && Unambiguous(r.routines) && ListsColumns(listing, l) && Complete(v, l, r)
    requires Writable(cat, header, l, r, listing, v)
    ensures var result := Apply(cat, r, File(header, l, r, listing, v));
            && (result.Some? && Converged(l, result.value) <==> Migratable(l, r, v.routines))
            && (Migratable(l, r, v.routines) ==> result == Some(Stage(l, r, Everything(l, r))))
  {
    FileIsPlan(cat, header, l, r, listing, v);
    ConvergesIffMigratable(l, r, listing, v);
    if Migratable(l, r, v.routines) { ScriptReaches(l, r, listing, v); }
  }

  // ----- Plain schemas

  /** Names without spaces, types without parentheses, one-line defaults whose needs the
      database knows, and definitions that it knows. */
  ghost predicate PlainSchema(cat: Catalog, l: Snapshot) {
    && (forall t :: t in l.tables ==> ' ' !in t)
    && (forall k :: k in l.columns ==> ' ' !in k.table && PlainColumn(cat, k.name, AsPrinted(l.columns[k])))
    && (forall n :: n in l.indexes ==> Readable(cat, CreateIndex(n, l.indexes[n])))
    && (forall f :: f in l.routines ==> Readable(cat, CreateOrReplaceRoutine(f, l.routines[f])))
    && (forall k :: k in l.triggers && l.triggers[k].definition != "" ==>
          ' ' !in k.name && Readable(cat, CreateTrigger(k, l.triggers[k])))
  }

  lemma {:induction false} PlainDefs(cat: Catalog, l: Snapshot, listing: seq<ColumnKey>, t: string)
    requires PlainSchema(cat, l)
    ensures forall d :: d in DefsOf(l, listing, t) ==> PlainColumn(cat, d.name, d.column)
  {
    if listing != [] { PlainDefs(cat, l, listing[..|listing| - 1], t); }
  }

  /** An operation of the diff is about what the local schema has. */
  predicate OpOf(l: Snapshot, op: Op) {
    match op
    case NewTable(t) => t in l.tables
    case NewColumn(k, c) => k in l.columns && c == l.columns[k]
    case ChangedColumn(k, c, _) => k in l.columns && c == l.columns[k]
    case NewIndex(n, i) => n in l.indexes && i == l.indexes[n]
    case ChangedIndex(n, i) => n in l.indexes && i == l.indexes[n]
    case NewRoutine(f, b) => f in l.routines && b == l.routines[f]
    case ChangedRoutine(f, b) => f in l.routines && b == l.routines[f]
    case NewTrigger(k, g) => k in l.triggers && g == l.triggers[k]
    case ChangedTrigger(k, g) => k in l.triggers && g == l.triggers[k]
  }

  lemma DiffIsLocal(l: Snapshot, r: Snapshot, v: Visit, op: Op)
    requires op in DiffIn(v, l, r)
    ensures OpOf(l, op)
  {
    var t, c, i, f := Flat(v.tables, TableRule(l, r)), Flat(v.columns, ColumnRule(l, r)),
                      Flat(v.indexes, IndexRule(l, r)), Flat(v.routines, RoutineRule(l, r));
    if op in t || op in c {
      TableOpIsLocal(l, r, v, op);
    } else if op in i {
      var n := FromSome(v.indexes, IndexRule(l, r), op);
    } else {
      LaterOpIsLocal(l, r, v, op);
    }
  }

  lemma TableOpIsLocal(l: Snapshot, r: Snapshot, v: Visit, op: Op)
    requires op in Flat(v.tables, TableRule(l, r)) || op in Flat(v.columns, ColumnRule(l, r))
    ensures OpOf(l, op)
  {
    if op in Flat(v.tables, TableRule(l, r)) {
      var t := FromSome(v.tables, TableRule(l, r), op);
    } else {
      var k := FromSome(v.columns, ColumnRule(l, r), op);
    }
  }

  lemma LaterOpIsLocal(l: Snapshot, r: Snapshot, v: Visit, op: Op)
    requires op in Flat(v.routines, RoutineRule(l, r)) || op in Flat(v.triggers, TriggerRule(l, r))
    ensures OpOf(l, op)
  {
    if op in Flat(v.routines, RoutineRule(l, r)) {
      var f := FromSome(v.routines, RoutineRule(l, r), op);
    } else {
      var k := FromSome(v.triggers, TriggerRule(l, r), op);
    }
  }

  lemma StatementIsReadable(cat: Catalog, l: Snapshot, listing: seq<ColumnKey>, op: Op, s: Statement)
    requires PlainSchema(cat, l) && OpOf(l, op) && s in StatementsOf(op, l, listing)
    ensures Readable(cat, s)
  {
    match op {
      case NewTable(t) =>
        PlainDefs(cat, l, listing, t);
        var defs := DefsOf(l, listing, t);
        assert forall i :: 0 <= i < |defs| ==> defs[i] in defs;
      case ChangedColumn(k, c, _) => assert PlainColumn(cat, k.name, AsPrinted(l.columns[k]));
      case NewTrigger(k, g) =>
      case ChangedTrigger(k, g) =>
      case _ =>
    }
  }

  /** All statements that the diff against a plain schema yields can be read. */
  lemma PlainSchemaIsReadable(cat: Catalog, l: Snapshot, r: Snapshot, listing: seq<ColumnKey>, v: Visit)
    requires PlainSchema(cat, l)
    ensures forall s :: s in Plan(DiffIn(v, l, r), l, listing) ==> Readable(cat, s)
  {
    forall s | s in Plan(DiffIn(v, l, r), l, listing) ensures Readable(cat, s) {
      var op := FromSome(DiffIn(v, l, r), StatementRule(l, listing), s);
      DiffIsLocal(l, r, v, op);
      StatementIsReadable(cat, l, listing, op, s);
    }
  }

  // ----- Schemas whose file can be written and read

  predicate Clean(s: string) {
    '$' !in s && '\n' !in s
  }

  /** Names and columns have no dollar sign and no line break, and each definition is one
      statement for the splitter. */
  ghost predicate TidySchema(l: Snapshot) {
    && (forall t :: t in l.tables ==> Clean(t))
    && (forall k :: k in l.columns ==> Clean(k.table) && Clean(k.name) && TidyColumn(k.name, AsPrinted(l.columns[k])))
    && (forall n :: n in l.indexes ==> Clean(n) && SplitsAlone(CreateIndex(n, l.indexes[n])))
    && (forall f :: f in l.routines ==>
          Clean(SigText(f)) && SplitsAlone(CreateOrReplaceRoutine(f, l.routines[f])))
    && (forall k :: k in l.triggers ==>
          Clean(k.table) && Clean(k.name) &&
          (l.triggers[k].definition != "" ==> SplitsAlone(CreateTrigger(k, l.triggers[k]))))
  }

  predicate TidyColumn(name: string, c: Column) {
    PlainLine(ColumnText(name, c)) && Clean(TypeText(c.udt, c.length))
  }

  predicate SplitsAlone(s: Statement) {
    IsStatement(SplitLines(Render(s)))
  }

  lemma CleanParts(a: string, b: string, c: string, d: string, e: string, f: string)
    requires Clean(a) && Clean(b) && Clean(c) && Clean(d) && Clean(e) && Clean(f)
    ensures Clean(a + b + c + d + e + f)
  {
  }

  /** A line of clean parts that starts with a word of the statement and ends with its end. */
  lemma LineSplitsAlone(s: Statement, a: string, b: string, c: string, d: string, e: string, f: string)
    requires Render(s) == a + b + c + d + e + f
    requires Clean(a) && Clean(b) && Clean(c) && Clean(d) && Clean(e) && Clean(f)
    requires a != "" && 'A' <= a[0] <= 'Z' && f == ";"
    ensures SplitsAlone(s)
  {
    var text := Render(s);
    CleanParts(a, b, c, d, e, f);
    assert text[0] == a[0] && text[|text| - 1] == ';' && |text| > 1;
    assert forall k :: 0 <= k < |text| ==> text[k] in text;
    PlainStatement(text);
  }

  lemma PlainIsClean(text: string)
    requires PlainLine(text)
    ensures Clean(text)
  {
  }

  lemma AddSplitsAlone(s: Statement, k: ColumnKey, text: string, word: string, next: string)
    requires Render(s) == word + k.table + next + text + ";" && Clean(k.table) && Clean(text)
    requires word == "ALTER TABLE " && next == " ADD COLUMN IF NOT EXISTS "
    ensures SplitsAlone(s)
  {
    assert word + k.table + next + text + "" == word + k.table + next + text;
    LineSplitsAlone(s, word, k.table, next, text, "", ";");
  }

  lemma AlterSplitsAlone(s: Statement, k: ColumnKey, change: string, word: string, next: string)
    requires Render(s) == word + k.table + next + k.name + change + ";"
    requires word == "ALTER TABLE " && next == " ALTER COLUMN " && Clean(k.table) && Clean(k.name) && Clean(change)
    ensures SplitsAlone(s)
  {
    LineSplitsAlone(s, word, k.table, next, k.name, change, ";");
  }

  lemma TypeSplitsAlone(s: Statement, k: ColumnKey, udt: string, length: nat, word: string, next: string, verb: string)
    requires s == AlterType(k, udt, length) && word == "ALTER TABLE " && next == " ALTER COLUMN " && verb == " TYPE "
    requires Clean(k.table) && Clean(k.name) && Clean(TypeText(udt, length))
    ensures SplitsAlone(s)
  {
    LastTwo(word + k.table + next + k.name, verb, TypeText(udt, length), ";");
    assert Clean(verb + TypeText(udt, length));
    AlterSplitsAlone(s, k, verb + TypeText(udt, length), word, next);
  }

  lemma NullSplitsAlone(s: Statement, k: ColumnKey)
    requires (s == DropNotNull(k) || s == SetNotNull(k)) && Clean(k.table) && Clean(k.name)
    ensures SplitsAlone(s)
  {
    var change := if s.DropNotNull? then " DROP NOT NULL" else " SET NOT NULL";
    NullText(s, k, change);
    AlterSplitsAlone(s, k, change, "ALTER TABLE ", " ALTER COLUMN ");
  }

  lemma DropIndexSplitsAlone(s: Statement, n: string, word: string)
    requires s == DropIndexIfExists(n) && Clean(n) && word == "DROP INDEX IF EXISTS "
    ensures SplitsAlone(s)
  {
    assert Render(s) == word + n + "" + "" + "" + ";";
    LineSplitsAlone(s, word, n, "", "", "", ";");
  }

  lemma DropTriggerSplitsAlone(s: Statement, k: TriggerKey, word: string, on: string)
    requires s == DropTriggerIfExists(k) && Clean(k.table) && Clean(k.name)
    requires word == "DROP TRIGGER IF EXISTS " && on == " ON "
    ensures SplitsAlone(s)
  {
    assert Render(s) == word + k.name + on + k.table + "" + ";";
    LineSplitsAlone(s, word, k.name, on, k.table, "", ";");
  }

  lemma {:induction false} TidyDefs(l: Snapshot, listing: seq<ColumnKey>, t: string)
    requires TidySchema(l)
    ensures forall d :: d in DefsOf(l, listing, t) ==> TidyColumn(d.name, d.column)
  {
    if listing != [] { TidyDefs(l, listing[..|listing| - 1], t); }
  }

  lemma TableSplitsAlone(l: Snapshot, listing: seq<ColumnKey>, t: string, defs: seq<ColumnDef>)
    requires TidySchema(l) && Clean(t) && defs == DefsOf(l, listing, t) && defs != []
    ensures SplitsAlone(CreateTableIfNotExists(t, defs))
  {
    TidyDefs(l, listing, t);
    forall i | 0 <= i < |defs| ensures PlainLine(ColumnText(defs[i].name, defs[i].column)) {
      assert defs[i] in defs;
    }
    assert forall k :: 0 <= k < |t| ==> t[k] in t;
    TableStatement(t, defs);
  }

  lemma ColumnSplitsAlone(l: Snapshot, s: Statement, k: ColumnKey)
    requires TidySchema(l) && k in l.columns
    requires s.AddColumnIfNotExists? || s.AlterType? || s.DropNotNull? || s.SetNotNull?
    requires s.key == k
    requires s.AddColumnIfNotExists? ==> s.column == AsPrinted(l.columns[k])
    requires s.AlterType? ==> s.udt == l.columns[k].udt && s.length == l.columns[k].length
    ensures SplitsAlone(s)
  {
    assert TidyColumn(k.name, AsPrinted(l.columns[k]));
    match s {
      case AddColumnIfNotExists(_, c) =>
        PlainIsClean(ColumnText(k.name, c));
        AddSplitsAlone(s, k, ColumnText(k.name, c), "ALTER TABLE ", " ADD COLUMN IF NOT EXISTS ");
      case AlterType(_, udt, length) =>
        TypeSplitsAlone(s, k, udt, length, "ALTER TABLE ", " ALTER COLUMN ", " TYPE ");
      case _ => NullSplitsAlone(s, k);
    }
  }

  lemma StatementSplitsAlone(l: Snapshot, listing: seq<ColumnKey>, op: Op, s: Statement)
    requires TidySchema(l) && OpOf(l, op) && s in StatementsOf(op, l, listing)
    ensures SplitsAlone(s)
  {
    match op {
      case NewTable(t) => TableSplitsAlone(l, listing, t, DefsOf(l, listing, t));
      case NewColumn(k, _) => ColumnSplitsAlone(l, s, k);
      case ChangedColumn(k, _, _) => ColumnSplitsAlone(l, s, k);
      case _ => DefinitionSplitsAlone(l, listing, op, s);
    }
  }

  lemma DefinitionSplitsAlone(l: Snapshot, listing: seq<ColumnKey>, op: Op, s: Statement)
    requires TidySchema(l) && OpOf(l, op) && s in StatementsOf(op, l, listing)
    requires !op.NewTable? && !op.NewColumn? && !op.ChangedColumn?
    ensures SplitsAlone(s)
  {
    if op.ChangedIndex? && s.DropIndexIfExists? {
      DropIndexSplitsAlone(s, op.index, "DROP INDEX IF EXISTS ");
    } else if op.ChangedTrigger? && s.DropTriggerIfExists? {
      DropTriggerSplitsAlone(s, op.trigger, "DROP TRIGGER IF EXISTS ", " ON ");
    }
  }

  lemma LineOf(a: string, b: string, c: string)
    requires NoNewline(a) && NoNewline(b) && NoNewline(c)
    ensures NoNewline(a + b) && NoNewline(a + (b + c)) && NoNewline(a + b + c)
  {
  }

  lemma CleanIsLine(s: string)
    requires Clean(s)
    ensures NoNewline(s)
  {
    forall i | 0 <= i < |s| ensures s[i] != '\n' { assert s[i] in s; }
  }

  lemma TableTitles(l: Snapshot, listing: seq<ColumnKey>, t: string)
    requires Clean(t)
    ensures TitlesAreLines(NewTable(t), l, listing)
  {
    CleanIsLine(t);
    LineOf("-- New table: ", t, "");
    LineOf("-- Could not retrieve columns for ", t, "");
  }

  lemma KeyTitles(table: string, name: string, title: string, end: string)
    requires Clean(table) && Clean(name) && NoNewline(title) && NoNewline(end)
    ensures NoNewline(title + KeyText(table, name)) && NoNewline(title + KeyText(table, name) + end)
  {
    CleanIsLine(table);
    CleanIsLine(name);
    LineOf(table, ".", name);
    LineOf(title, KeyText(table, name), end);
  }

  lemma TriggerTitles(l: Snapshot, listing: seq<ColumnKey>, op: Op, end: string)
    requires (op.NewTrigger? || op.ChangedTrigger?) && Clean(op.trigger.table) && Clean(op.trigger.name)
    requires end == if op.body.definition == "" then " (definition not captured)" else ""
    ensures TitlesAreLines(op, l, listing)
  {
    var title := if op.NewTrigger? then "-- New trigger: " else "-- Changed trigger: ";
    KeyTitles(op.trigger.table, op.trigger.name, title, end);
    assert Comments(op, l, listing) == [title + KeyText(op.trigger.table, op.trigger.name) + end];
  }

  lemma RoutineTitles(l: Snapshot, listing: seq<ColumnKey>, op: Op)
    requires (op.NewRoutine? || op.ChangedRoutine?) && Clean(SigText(op.sig))
    ensures TitlesAreLines(op, l, listing)
  {
    CleanIsLine(SigText(op.sig));
    LineOf(if op.NewRoutine? then "-- New function: " else "-- Changed function: ", SigText(op.sig), "");
  }

  lemma EitherTitles(l: Snapshot, listing: seq<ColumnKey>, op: Op)
    requires (op.NewTrigger? || op.ChangedTrigger?) && Clean(op.trigger.table) && Clean(op.trigger.name)
    ensures TitlesAreLines(op, l, listing)
  {
    TriggerTitles(l, listing, op, if op.body.definition == "" then " (definition not captured)" else "");
  }

  lemma ColumnTitles(l: Snapshot, listing: seq<ColumnKey>, op: Op)
    requires op.ChangedColumn? && Clean(op.key.table) && Clean(op.key.name)
    ensures TitlesAreLines(op, l, listing)
  {
    KeyTitles(op.key.table, op.key.name, "-- Alter column: ", "");
  }

  lemma NoTitles(l: Snapshot, listing: seq<ColumnKey>, op: Op)
    requires op.NewColumn? || op.NewIndex? || op.ChangedIndex?
    ensures TitlesAreLines(op, l, listing)
  {
    assert Comments(op, l, listing) == [];
  }

  lemma TitlesOfTidy(l: Snapshot, listing: seq<ColumnKey>, op: Op)
    requires TidySchema(l) && OpOf(l, op)
    ensures TitlesAreLines(op, l, listing)
  {
    match op {
      case NewTable(t) => TableTitles(l, listing, t);
      case ChangedColumn(k, _, _) => ColumnTitles(l, listing, op);
      case NewRoutine(_, _) => RoutineTitles(l, listing, op);
      case ChangedRoutine(_, _) => RoutineTitles(l, listing, op);
      case NewTrigger(_, g) => EitherTitles(l, listing, op);
      case ChangedTrigger(_, g) => EitherTitles(l, listing, op);
      case _ => NoTitles(l, listing, op);
    }
  }

  /** From the schema alone: its difference to any other can be written to a file that is
      read back. */
  lemma TidySchemaIsWritable(cat: Catalog, header: seq<string>, l: Snapshot, r: Snapshot, listing: seq<ColumnKey>,
                             v: Visit)
    requires TidySchema(l) && PlainSchema(cat, l)
    requires header != [] && forall i :: 0 <= i < |header| ==> NoNewline(header[i]) && IsJunk(header[i])
    ensures Writable(cat, header, l, r, listing, v)
  {
    forall op | op in DiffIn(v, l, r) ensures TitlesAreLines(op, l, listing) {
      DiffIsLocal(l, r, v, op);
      TitlesOfTidy(l, listing, op);
    }
    PlainSchemaIsReadable(cat, l, r, listing, v);
    forall s | s in Plan(DiffIn(v, l, r), l, listing) ensures IsStatement(SplitLines(Render(s))) {
      var op := FromSome(DiffIn(v, l, r), StatementRule(l, listing), s);
      DiffIsLocal(l, r, v, op);
      StatementSplitsAlone(l, listing, op, s);
    }
  }
}
