/** Database schema snapshots, and what the statements of a migration do to one.

    A snapshot's columns include those of views, whose names are not among its
    tables.  Column and trigger keys are pairs here; the program joins the two
    names with a dot.  A default of "" and a length of 0 stand for none.

    A database also has what the program neither compares nor prints.  `objects` has the
    names of types, sequences, views and of what extensions bring, and `uses` what a
    default, an index, a function or a trigger needs of these and of functions when it is
    created.  `casts` has the conversions that a change of type may rely on, and `pinned`
    the changes of type that the column's default or something depending on the column
    does not survive: a view, a trigger, a generated column, an index or a foreign key that
    does not take the type.  `required` are the columns that a primary key or an identity
    keeps from being null. */
module Schema {
  import opened Options

  /** A function as calls find it: by its name and the types of the parameters they give. */
  datatype Identity = Identity(name: string, types: seq<string>)

  /** `mode` is "" or a word such as "OUT" or "VARIADIC". */
  datatype Param = Param(mode: string, name: string, kind: string)

  /** The program's key of a function, which has the names of its parameters, too. */
  datatype Sig = Sig(name: string, params: seq<Param>)

  /** The parameters that calls give. */
  function Inputs(params: seq<Param>): seq<Param> {
    if params == [] then []
    else (if params[0].mode == "OUT" then [] else [params[0]]) + Inputs(params[1..])
  }

  function Types(params: seq<Param>): seq<string> {
    if params == [] then [] else [params[0].kind] + Types(params[1..])
  }

  function IdentityOf(sig: Sig): Identity {
    Identity(sig.name, Types(Inputs(sig.params)))
  }

  /** What a function offers to those who use it: "" for its existence, and properties they
      may rely on, such as being immutable or having a default for its last parameter. */
  datatype Offer = Offer(callee: Identity, feature: string)

  /** Something a statement needs besides tables and columns. */
  datatype Need = Object(name: string) | Calls(offer: Offer)

  /** `uses` is what the default needs; the type is an object, too.  `modifier` is the rest
      of the type, such as dimensions or precision; only a length of characters is printed. */
  datatype Column = Column(udt: string, length: nat, modifier: string, nullable: bool, default: string, uses: set<Need>)

  /** The column that its printed definition describes. */
  function AsPrinted(c: Column): Column {
    c.(modifier := "")
  }

  datatype ColumnKey = ColumnKey(table: string, name: string)

  /** What an index or a trigger is on: a table of the snapshots, or something that the diff
      does not compare, such as a view, a materialized view or a table that it ignores. */
  datatype Host = OnTable | OnOther(name: string)

  /** `modified` are the columns that must have a type modifier; `backs` says that a
      constraint relies on the index. */
  datatype Index = Index(table: string, host: Host, definition: string, uses: set<Need>, modified: set<string>,
                         backs: bool)

  /** The index that its printed definition describes. */
  function Made(i: Index): Index {
    i.(backs := false)
  }

  /** `result` is the kind of the function and its result's type with all names, `defaults` how many of
      its parameters have a default. */
  datatype Routine = Routine(hash: string, definition: string, result: string, defaults: nat, features: set<string>,
                             uses: set<Need>)

  /** A definition of "" was not captured. */
  datatype Trigger = Trigger(host: Host, action: string, definition: string, uses: set<Need>)

  datatype TriggerKey = TriggerKey(table: string, name: string)

  datatype Snapshot = Snapshot(
    tables: set<string>,
    columns: map<ColumnKey, Column>,
    indexes: map<string, Index>,
    routines: map<Sig, Routine>,
    triggers: map<TriggerKey, Trigger>,
    objects: set<string>,
    casts: set<Cast>,
    pinned: set<Pin>,
    required: set<ColumnKey>)

  datatype Cast = Cast(source: string, target: string)

  datatype Pin = Pin(key: ColumnKey, target: string)

  datatype ColumnDef = ColumnDef(name: string, column: Column)

  datatype Statement =
    | CreateTableIfNotExists(table: string, defs: seq<ColumnDef>)
    | AddColumnIfNotExists(key: ColumnKey, column: Column)
    | AlterType(key: ColumnKey, udt: string, length: nat)
    | DropNotNull(key: ColumnKey)
    | SetNotNull(key: ColumnKey)
    | DropIndexIfExists(index: string)
    | CreateIndex(index: string, def: Index)
    | CreateOrReplaceRoutine(sig: Sig, routine: Routine)
    | DropTriggerIfExists(trigger: TriggerKey)
    | CreateTrigger(trigger: TriggerKey, body: Trigger)

  /** A table or a view of that name exists. */
  predicate RelationExists(db: Snapshot, t: string) {
    t in db.tables || exists k :: k in db.columns && k.table == t
  }

  function Offers(routines: map<Sig, Routine>): set<Offer> {
    (set f | f in routines :: Offer(IdentityOf(f), "")) +
    (set f, x | f in routines && x in routines[f].features :: Offer(IdentityOf(f), x))
  }

  predicate HostExists(tables: set<string>, objects: set<string>, t: string, host: Host) {
    match host
    case OnTable => t in tables
    case OnOther(name) => name in objects
  }

  predicate Available(objects: set<string>, offers: set<Offer>, uses: set<Need>) {
    forall n :: n in uses ==> match n { case Object(name) => name in objects case Calls(offer) => offer in offers }
  }

  predicate ColumnReady(objects: set<string>, offers: set<Offer>, c: Column) {
    c.udt in objects && Available(objects, offers, c.uses)
  }

  predicate DefsReady(objects: set<string>, offers: set<Offer>, defs: seq<ColumnDef>) {
    forall i :: 0 <= i < |defs| ==> ColumnReady(objects, offers, defs[i].column)
  }

  /** An index that needs the column's type modifier exists. */
  predicate ModifierNeeded(indexes: map<string, Index>, k: ColumnKey) {
    exists n :: n in indexes && indexes[n].table == k.table && k.name in indexes[n].modified
  }

  predicate HasModifiers(columns: map<ColumnKey, Column>, i: Index) {
    forall c :: c in i.modified ==> ColumnKey(i.table, c) in columns && columns[ColumnKey(i.table, c)].modifier != ""
  }

  predicate KeepsNames(was: seq<Param>, now: seq<Param>) {
    |was| == |now| && forall i :: 0 <= i < |was| && was[i].name != "" ==> now[i].name == was[i].name
  }

  /** A replacement of the same identity must keep the names that parameters have, the kind
      and the result type, and may not take defaults away. */
  predicate Replaces(was: Sig, o: Routine, sig: Sig, f: Routine) {
    && KeepsNames(Inputs(was.params), Inputs(sig.params))
    && o.result == f.result && o.defaults <= f.defaults
  }

  /** The functions of other identities. */
  function Others(routines: map<Sig, Routine>, id: Identity): map<Sig, Routine> {
    map g | g in routines && IdentityOf(g) != id :: routines[g]
  }

  /** The columns of table `t` as its definition lists them. */
  function Defined(t: string, defs: seq<ColumnDef>): map<ColumnKey, Column> {
    if defs == [] then map[]
    else
      var last := defs[|defs| - 1];
      Defined(t, defs[..|defs| - 1])[ColumnKey(t, last.name) := last.column]
  }

  /** What the database does with a statement; None is an error, which ends the
      transaction.  `IF NOT EXISTS` looks at every relation, views included. */
  function Execute(db: Snapshot, s: Statement): Option<Snapshot> {
    match s
    case CreateTableIfNotExists(t, defs) =>
      if RelationExists(db, t) then Some(db)
      else if !DefsReady(db.objects, Offers(db.routines), defs) then None
      else Some(db.(tables := db.tables + {t}, columns := db.columns + Defined(t, defs)))
    case AddColumnIfNotExists(k, c) =>
      if k.table !in db.tables then None
      else if k in db.columns then Some(db)
      else if !ColumnReady(db.objects, Offers(db.routines), c) then None
      else Some(db.(columns := db.columns[k := c]))
    case AlterType(k, udt, length) =>
      if k.table !in db.tables || k !in db.columns || udt !in db.objects || Pin(k, udt) in db.pinned ||
         Cast(db.columns[k].udt, udt) !in db.casts || ModifierNeeded(db.indexes, k)
      then None
      else Some(db.(columns := db.columns[k := db.columns[k].(udt := udt, length := length, modifier := "")]))
    case DropNotNull(k) =>
      if k.table !in db.tables || k !in db.columns || k in db.required then None
      else Some(db.(columns := db.columns[k := db.columns[k].(nullable := true)]))
    case SetNotNull(k) =>
      if k.table !in db.tables || k !in db.columns then None
      else Some(db.(columns := db.columns[k := db.columns[k].(nullable := false)]))
    case DropIndexIfExists(n) =>
      if n in db.indexes && db.indexes[n].backs then None
      else Some(db.(indexes := db.indexes - {n}))
    case CreateIndex(n, i) =>
      if !HostExists(db.tables, db.objects, i.table, i.host) || n in db.indexes ||
         !Available(db.objects, Offers(db.routines), i.uses) || !HasModifiers(db.columns, i)
      then None
      else Some(db.(indexes := db.indexes[n := Made(i)]))
    case CreateOrReplaceRoutine(sig, f) =>
      var id := IdentityOf(sig);
      if exists g :: g in db.routines && IdentityOf(g) == id && !Replaces(g, db.routines[g], sig, f) then None
      else if !Available(db.objects, Offers(Others(db.routines, id)[sig := f]), f.uses) then None
      else Some(db.(routines := Others(db.routines, id)[sig := f]))
    case DropTriggerIfExists(k) =>
      Some(db.(triggers := db.triggers - {k}))
    case CreateTrigger(k, g) =>
      if !HostExists(db.tables, db.objects, k.table, g.host) || k in db.triggers ||
         !Available(db.objects, Offers(db.routines), g.uses)
      then None
      else Some(db.(triggers := db.triggers[k := g]))
  }

  /** A script runs in one transaction: the first error undoes it all. */
  function ExecuteAll(db: Snapshot, script: seq<Statement>): Option<Snapshot> {
    if script == [] then Some(db)
    else
      match ExecuteAll(db, script[..|script| - 1])
      case None => None
      case Some(before) => Execute(before, script[|script| - 1])
  }

  lemma {:induction false} ExecuteConcat(db: Snapshot, a: seq<Statement>, b: seq<Statement>)
    ensures ExecuteAll(db, a + b) ==
            match ExecuteAll(db, a)
            case None => None
            case Some(mid) => ExecuteAll(mid, b)
  {
    if b == [] {
      assert a + b == a;
    } else {
      assert (a + b)[..|a + b| - 1] == a + b[..|b| - 1];
      ExecuteConcat(db, a, b[..|b| - 1]);
    }
  }
}
