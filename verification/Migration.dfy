/** One migration brings the remote schema to the local one: what the generated
    statements leave behind, exactly when they converge, and what they never touch. */
module Migration {
  import opened Options
  import opened Schema
  import opened SchemaDiff

  // ----- Assumptions about the catalogs

  /** Functions are told apart by their identities, whatever their parameters are called. */
  ghost predicate Unambiguous(routines: map<Sig, Routine>) {
    forall f, g :: f in routines && g in routines && IdentityOf(f) == IdentityOf(g) ==> f == g
  }

  /** `listing` has every local column once, in the catalog's order. */
  ghost predicate ListsColumns(listing: seq<ColumnKey>, l: Snapshot) {
    Enumerates(listing, l.columns.Keys)
  }

  // ----- When a migration works

  ghost predicate HasColumns(l: Snapshot, t: string) {
    exists k :: k in l.columns && k.table == t
  }

  /** The table has a column, no namesake among the remote views, and all that its
      columns need is there already: functions are created after tables, other objects
      never. */
  ghost predicate TableReady(l: Snapshot, r: Snapshot, t: string) {
    && HasColumns(l, t) && !RelationExists(r, t)
    && forall k :: k in l.columns && k.table == t ==> ColumnReady(r.objects, Offers(r.routines), l.columns[k])
  }

  ghost predicate AddReady(l: Snapshot, r: Snapshot, k: ColumnKey) {
    k in l.columns && k.table in l.tables && k.table in r.tables && k !in r.columns ==>
      ColumnReady(r.objects, Offers(r.routines), l.columns[k])
  }

  /** The column changes its type. */
  ghost predicate Retyped(l: Snapshot, r: Snapshot, k: ColumnKey) {
    k in l.columns && k.table in l.tables && k.table in r.tables && k in r.columns &&
    l.columns[k].udt != r.columns[k].udt
  }

  /** The new type is there, the old one converts to it, and nothing depends on the old one. */
  ghost predicate AlterReady(l: Snapshot, r: Snapshot, k: ColumnKey) {
    Retyped(l, r, k) ==>
      && l.columns[k].udt in r.objects && Cast(r.columns[k].udt, l.columns[k].udt) in r.casts
      && Pin(k, l.columns[k].udt) !in r.pinned && !ModifierNeeded(r.indexes, k)
  }

  /** A column that is to become nullable may be null. */
  ghost predicate NullReady(l: Snapshot, r: Snapshot, k: ColumnKey) {
    k in l.columns && k.table in l.tables && k.table in r.tables && k in r.columns &&
    l.columns[k].nullable && !r.columns[k].nullable ==>
      k !in r.required
  }

  /** Only columns that are left alone have a type modifier: printing drops it. */
  ghost predicate Modified(l: Snapshot, r: Snapshot, k: ColumnKey) {
    k in r.columns && r.columns[k].modifier != "" && !Retyped(l, r, k)
  }

  /** What an index or a trigger is on is there, or created before it. */
  ghost predicate Hosted(l: Snapshot, r: Snapshot, t: string, host: Host) {
    HostExists(r.tables + l.tables, r.objects, t, host)
  }

  /** A new or changed index finds what it is on and what it needs, type modifiers included,
      and does not replace one that belongs to a constraint. */
  ghost predicate IndexReady(l: Snapshot, r: Snapshot, n: string) {
    n in l.indexes && IndexOps(l, r, n) != [] ==>
      && Hosted(l, r, l.indexes[n].table, l.indexes[n].host)
      && Available(r.objects, Offers(r.routines), l.indexes[n].uses)
      && (forall c :: c in l.indexes[n].modified ==> Modified(l, r, ColumnKey(l.indexes[n].table, c)))
      && (n in r.indexes ==> !r.indexes[n].backs)
  }

  /** A new or replaced function finds what it uses among the remote functions and those
      that come before it in the script, and it can replace the remote function of its
      identity, whatever that one's parameters are called. */
  ghost predicate RoutineReady(l: Snapshot, r: Snapshot, order: seq<Sig>, i: nat)
    requires i < |order|
  {
    var f := order[i];
    f in l.routines && RoutineOps(l, r, f) != [] ==>
      && Replaceable(l, r, f)
      && Available(r.objects, Offers(RoutinesAt(l, r, Elements(order[..i]) + {f})), l.routines[f].uses)
  }

  /** A new or changed trigger has a definition and finds what it is on and what it uses. */
  ghost predicate TriggerReady(l: Snapshot, r: Snapshot, k: TriggerKey) {
    k in l.triggers && TriggerOps(l, r, k) != [] ==>
      && l.triggers[k].definition != ""
      && Hosted(l, r, k.table, l.triggers[k].host)
      && Available(r.objects, Offers(RoutinesAt(l, r, l.routines.Keys)), l.triggers[k].uses)
  }

  ghost predicate Replaceable(l: Snapshot, r: Snapshot, f: Sig)
    requires f in l.routines
  {
    forall g :: g in r.routines && IdentityOf(g) == IdentityOf(f) ==> Replaces(g, r.routines[g], f, l.routines[f])
  }

  /** Everything to be created or changed finds what it needs at its place in the script. */
  ghost predicate Migratable(l: Snapshot, r: Snapshot, order: seq<Sig>) {
    && (forall t :: t in l.tables && t !in r.tables ==> TableReady(l, r, t))
    && (forall k :: AddReady(l, r, k))
    && (forall k :: AlterReady(l, r, k) && NullReady(l, r, k))
    && (forall n :: IndexReady(l, r, n))
    && (forall i :: 0 <= i < |order| ==> RoutineReady(l, r, order, i))
    && (forall k :: TriggerReady(l, r, k))
  }

  ghost function Elements<K>(order: seq<K>): set<K> {
    set k | k in order
  }

  /** The local schema is there: every table, column (by type and nullability), index
      definition, function body and trigger action. */
  ghost predicate Converged(l: Snapshot, db: Snapshot) {
    && l.tables <= db.tables
    && (forall k :: k in l.columns && k.table in l.tables ==>
          k in db.columns && db.columns[k].udt == l.columns[k].udt && db.columns[k].nullable == l.columns[k].nullable)
    && (forall n :: n in l.indexes ==> n in db.indexes && db.indexes[n].definition == l.indexes[n].definition)
    && (forall f :: f in l.routines ==> f in db.routines && db.routines[f].hash == l.routines[f].hash)
    && (forall k :: k in l.triggers ==> k in db.triggers && db.triggers[k].action == l.triggers[k].action)
  }

  /** Whatever only the remote schema has is as it was. */
  ghost predicate KeepsRemote(l: Snapshot, r: Snapshot, db: Snapshot) {
    && KeepsOthers(l, r, db)
    && forall f :: f in r.routines && f !in l.routines ==> f in db.routines && db.routines[f] == r.routines[f]
  }

  /** The same but for functions. */
  ghost predicate KeepsOthers(l: Snapshot, r: Snapshot, db: Snapshot) {
    && r.tables <= db.tables && r.objects == db.objects
    && (forall k :: k in r.columns && (k !in l.columns || k.table !in l.tables) ==>
          k in db.columns && db.columns[k] == r.columns[k])
    && (forall n :: n in r.indexes && n !in l.indexes ==> n in db.indexes && db.indexes[n] == r.indexes[n])
    && (forall k :: k in r.triggers && k !in l.triggers ==> k in db.triggers && db.triggers[k] == r.triggers[k])
  }

  /** A local function of these has the identity of the remote one under another key. */
  ghost predicate Displaced(l: Snapshot, done: set<Sig>, g: Sig) {
    exists f :: f in done && f in l.routines && f != g && IdentityOf(f) == IdentityOf(g)
  }

  /** No function that only the remote has is overwritten. */
  ghost predicate NoneDisplaced(l: Snapshot, r: Snapshot) {
    forall g :: g in r.routines && g !in l.routines ==> !Displaced(l, l.routines.Keys, g)
  }

  // ----- The remote schema while the script runs

  /** Which names have been dealt with. */
  datatype Done = Done(
    tables: set<string>,
    columns: set<ColumnKey>,
    indexes: set<string>,
    routines: set<Sig>,
    triggers: set<TriggerKey>)

  const NOTHING := Done({}, {}, {}, {}, {})

  function MergedColumn(lc: Column, rc: Column): Column {
    if lc.udt == rc.udt then rc.(nullable := lc.nullable)
    else rc.(udt := lc.udt, length := lc.length, modifier := "", nullable := lc.nullable)
  }

  ghost function ColumnsAt(l: Snapshot, r: Snapshot, tables: set<string>,
                           columns: set<ColumnKey>): map<ColumnKey, Column> {
    map k | k in l.columns.Keys + r.columns.Keys &&
            (k in r.columns || k.table in tables || (k in columns && k.table in l.tables && k.table in r.tables)) ::
      if k in l.columns && k.table in tables then AsPrinted(l.columns[k])
      else if k in l.columns && k in columns && k.table in l.tables && k.table in r.tables then
        (if k in r.columns then MergedColumn(l.columns[k], r.columns[k]) else AsPrinted(l.columns[k]))
      else r.columns[k]
  }

  ghost function IndexesAt(l: Snapshot, r: Snapshot, done: set<string>): map<string, Index> {
    map n | n in l.indexes.Keys + r.indexes.Keys && (n in r.indexes || n in done) ::
      if n in done && IndexOps(l, r, n) != [] then Made(l.indexes[n]) else r.indexes[n]
  }

  ghost function RoutinesAt(l: Snapshot, r: Snapshot, done: set<Sig>): map<Sig, Routine> {
    map f | f in l.routines.Keys + r.routines.Keys && (f in done || (f in r.routines && !Displaced(l, done, f))) ::
      if f in done && RoutineOps(l, r, f) != [] then l.routines[f] else r.routines[f]
  }

  ghost function TriggersAt(l: Snapshot, r: Snapshot, done: set<TriggerKey>): map<TriggerKey, Trigger> {
    map k | k in l.triggers.Keys + r.triggers.Keys && (k in r.triggers || k in done) ::
      if k in done && TriggerOps(l, r, k) != [] then l.triggers[k] else r.triggers[k]
  }

  ghost function Stage(l: Snapshot, r: Snapshot, d: Done): Snapshot {
    Snapshot(r.tables + d.tables, ColumnsAt(l, r, d.tables, d.columns), IndexesAt(l, r, d.indexes),
             RoutinesAt(l, r, d.routines), TriggersAt(l, r, d.triggers), r.objects, r.casts, r.pinned,
             r.required)
  }

  /** All names of both snapshots. */
  ghost function Everything(l: Snapshot, r: Snapshot): Done {
    Done(l.tables - r.tables, l.columns.Keys + r.columns.Keys, l.indexes.Keys, l.routines.Keys, l.triggers.Keys)
  }

  lemma StageOfNothing(l: Snapshot, r: Snapshot)
    ensures Stage(l, r, NOTHING) == r
  {
    NothingReplaced(l, r);
    assert ColumnsAt(l, r, {}, {}) == r.columns;
    assert IndexesAt(l, r, {}) == r.indexes;
    assert TriggersAt(l, r, {}) == r.triggers;
  }

  lemma ElementsGrow<K>(order: seq<K>, n: nat)
    requires n < |order|
    ensures Elements(order[..n + 1]) == Elements(order[..n]) + {order[n]}
  {
    assert order[..n + 1] == order[..n] + [order[n]];
  }

  /** If each name's statements move the schema from one stage to the next, running
      through the first n names in this order reaches their stage. */
  lemma {:induction false} RunThrough<K>(order: seq<K>, f: K -> seq<Statement>, stage: set<K> -> Snapshot, n: nat)
    requires n <= |order|
    requires forall i :: 0 <= i < |order| ==>
               ExecuteAll(stage(Elements(order[..i])), f(order[i])) == Some(stage(Elements(order[..i]) + {order[i]}))
    ensures ExecuteAll(stage({}), Flat(order[..n], f)) == Some(stage(Elements(order[..n])))
  {
    if n == 0 {
      assert Elements(order[..0]) == {};
    } else {
      RunThrough(order, f, stage, n - 1);
      ElementsGrow(order, n - 1);
      FlatGrows(order, n - 1, f);
      var done, name := Elements(order[..n - 1]), order[n - 1];
      ThenExecute(stage({}), Flat(order[..n - 1], f), f(name), stage(done), stage(done + {name}));
    }
  }

  lemma ThenExecute(db: Snapshot, before: seq<Statement>, step: seq<Statement>, mid: Snapshot, after: Snapshot)
    requires ExecuteAll(db, before) == Some(mid) && ExecuteAll(mid, step) == Some(after)
    ensures ExecuteAll(db, before + step) == Some(after)
  {
    ExecuteConcat(db, before, step);
  }

  /** The catalog's listing defines exactly the table's local columns. */
  lemma {:induction false} DefsDefine(l: Snapshot, listing: seq<ColumnKey>, t: string, k: ColumnKey)
    ensures var defined := Defined(t, DefsOf(l, listing, t));
            if k in l.columns && k.table == t && k in listing then k in defined && defined[k] == AsPrinted(l.columns[k])
            else k !in defined
  {
    if listing != [] {
      var init, last := listing[..|listing| - 1], listing[|listing| - 1];
      DefsDefine(l, init, t, k);
      assert k in listing <==> k in init || k == last;
      if last.table == t && last in l.columns {
        var def := ColumnDef(last.name, AsPrinted(l.columns[last]));
        var defs := DefsOf(l, init, t) + [def];
        assert DefsOf(l, listing, t) == defs && defs[..|defs| - 1] == DefsOf(l, init, t);
        assert Defined(t, defs) == Defined(t, DefsOf(l, init, t))[last := AsPrinted(l.columns[last])];
      }
    }
  }

  lemma NoColumnsNoDefs(l: Snapshot, listing: seq<ColumnKey>, t: string)
    requires ListsColumns(listing, l)
    ensures DefsOf(l, listing, t) == [] <==> !HasColumns(l, t)
  {
    var defs := DefsOf(l, listing, t);
    if defs != [] {
      var k := ColumnKey(t, defs[|defs| - 1].name);
      assert k in Defined(t, defs);
      DefsDefine(l, listing, t, k);
    }
    if HasColumns(l, t) {
      var k :| k in l.columns && k.table == t;
      DefsDefine(l, listing, t, k);
    }
  }

  lemma SingleStatement(db: Snapshot, s: Statement)
    ensures ExecuteAll(db, [s]) == Execute(db, s)
  {
    assert [s][..0] == [];
    assert ExecuteAll(db, []) == Some(db);
  }

  lemma TwoStatements(db: Snapshot, s: Statement, t: Statement)
    ensures ExecuteAll(db, [s, t]) ==
            match Execute(db, s)
            case None => None
            case Some(mid) => Execute(mid, t)
  {
    SingleStatement(db, s);
    assert [s, t][..1] == [s];
  }

  lemma PlanOne(op: Op, l: Snapshot, listing: seq<ColumnKey>)
    ensures Plan([op], l, listing) == StatementsOf(op, l, listing)
  {
    assert [op][..0] == [];
    assert Flat([op], StatementRule(l, listing)) ==
           Flat([], StatementRule(l, listing)) + StatementRule(l, listing)(op);
  }

  /** The definition of a table is ready when all its columns are. */
  lemma {:induction false} DefsReadyIff(l: Snapshot, listing: seq<ColumnKey>, t: string, objects: set<string>,
                                        offers: set<Offer>)
    ensures DefsReady(objects, offers, DefsOf(l, listing, t)) <==>
            forall k :: k in l.columns && k.table == t && k in listing ==> ColumnReady(objects, offers, l.columns[k])
  {
    if listing != [] {
      var init, last := listing[..|listing| - 1], listing[|listing| - 1];
      DefsReadyIff(l, init, t, objects, offers);
      assert forall k :: k in listing <==> k in init || k == last;
      var before, after := DefsOf(l, init, t), DefsOf(l, listing, t);
      if last.table == t && last in l.columns {
        assert after[..|before|] == before && after[|before|].column == AsPrinted(l.columns[last]);
        assert DefsReady(objects, offers, after) <==>
               DefsReady(objects, offers, before) && ColumnReady(objects, offers, l.columns[last]) by {
          assert forall i :: 0 <= i < |before| ==> after[i] == before[i];
        }
      }
    }
  }

  lemma NewTableColumns(l: Snapshot, r: Snapshot, listing: seq<ColumnKey>, done: set<string>, t: string)
    requires ListsColumns(listing, l) && !RelationExists(r, t) && t !in done
    ensures ColumnsAt(l, r, done, {}) + Defined(t, DefsOf(l, listing, t)) == ColumnsAt(l, r, done + {t}, {})
    ensures forall k :: k in ColumnsAt(l, r, done, {}) ==> k.table != t
  {
    var before, after := ColumnsAt(l, r, done, {}), ColumnsAt(l, r, done + {t}, {});
    var both := before + Defined(t, DefsOf(l, listing, t));
    forall k ensures (k in both <==> k in after) && (k in both && k in after ==> both[k] == after[k]) {
      DefsDefine(l, listing, t, k);
    }
    assert both.Keys == after.Keys;
  }

  /** Creating a table adds it with all its columns and nothing else. */
  lemma TableStep(l: Snapshot, r: Snapshot, listing: seq<ColumnKey>, done: set<string>, t: string)
    requires TableReady(l, r, t) && ListsColumns(listing, l)
    requires t in l.tables && t !in r.tables && t !in done
    ensures ExecuteAll(Stage(l, r, NOTHING.(tables := done)), Plan(TableOps(l, r, t), l, listing)) ==
            Some(Stage(l, r, NOTHING.(tables := done + {t})))
  {
    var defs, db := DefsOf(l, listing, t), Stage(l, r, NOTHING.(tables := done));
    assert Plan(TableOps(l, r, t), l, listing) == [CreateTableIfNotExists(t, defs)] by {
      PlanOne(NewTable(t), l, listing);
      NoColumnsNoDefs(l, listing, t);
    }
    SingleStatement(db, CreateTableIfNotExists(t, defs));
    CreateNext(l, r, listing, done, t);
  }

  lemma NothingReplaced(l: Snapshot, r: Snapshot)
    ensures RoutinesAt(l, r, {}) == r.routines
    ensures IndexesAt(l, r, {}) == r.indexes
  {
  }

  lemma NotYetThere(l: Snapshot, r: Snapshot, done: set<string>, t: string)
    requires !RelationExists(r, t) && t !in done
    ensures !RelationExists(Stage(l, r, NOTHING.(tables := done)), t)
  {
    var columns := ColumnsAt(l, r, done, {});
    assert forall k :: k in columns ==> k.table != t;
  }

  lemma CreateNext(l: Snapshot, r: Snapshot, listing: seq<ColumnKey>, done: set<string>, t: string)
    requires TableReady(l, r, t) && ListsColumns(listing, l)
    requires t in l.tables && t !in r.tables && t !in done
    ensures Execute(Stage(l, r, NOTHING.(tables := done)), CreateTableIfNotExists(t, DefsOf(l, listing, t))) ==
            Some(Stage(l, r, NOTHING.(tables := done + {t})))
  {
    var defs, db := DefsOf(l, listing, t), Stage(l, r, NOTHING.(tables := done));
    NewTableColumns(l, r, listing, done, t);
    NothingReplaced(l, r);
    NotYetThere(l, r, done, t);
    DefsReadyIff(l, listing, t, db.objects, Offers(db.routines));
    assert db.tables + {t} == r.tables + (done + {t});
  }

  lemma ColumnsGrow(l: Snapshot, r: Snapshot, tables: set<string>, done: set<ColumnKey>, k: ColumnKey)
    requires k !in done && tables !! r.tables
    ensures var before, after := ColumnsAt(l, r, tables, done), ColumnsAt(l, r, tables, done + {k});
            if k !in l.columns || k.table !in l.tables || k.table !in r.tables then after == before
            else if k in r.columns then
              k in before && before[k] == r.columns[k] && after == before[k := MergedColumn(l.columns[k], r.columns[k])]
            else k !in before && after == before[k := AsPrinted(l.columns[k])]
  {
  }

  /** Bringing a common table's column to the local type and nullability. */
  lemma ColumnStep(l: Snapshot, r: Snapshot, listing: seq<ColumnKey>, d: Done, k: ColumnKey)
    requires d.tables !! r.tables && k !in d.columns && d.routines == {} && d.indexes == {}
    requires AddReady(l, r, k) && AlterReady(l, r, k) && NullReady(l, r, k)
    ensures ExecuteAll(Stage(l, r, d), Plan(ColumnOps(l, r, k), l, listing)) ==
            Some(Stage(l, r, d.(columns := d.columns + {k})))
  {
    var db, ops := Stage(l, r, d), ColumnOps(l, r, k);
    ColumnsGrow(l, r, d.tables, d.columns, k);
    NothingReplaced(l, r);
    if ops == [] {
      if k in l.columns && k in r.columns && k.table in l.tables && k.table in r.tables {
        assert MergedColumn(l.columns[k], r.columns[k]) == r.columns[k];
        assert db.columns[k := r.columns[k]] == db.columns;
      }
      assert ExecuteAll(db, []) == Some(db);
    } else {
      PlanOne(ops[0], l, listing);
      if ops[0].NewColumn? {
        SingleStatement(db, AddColumnIfNotExists(k, AsPrinted(l.columns[k])));
      } else {
        AlterColumn(l, r, listing, db, k);
      }
    }
  }

  lemma UpdateTwice<K, V>(m: map<K, V>, k: K, v: V, w: V)
    ensures m[k := v][k := w] == m[k := w] && (m - {k})[k := w] == m[k := w]
    ensures k in m ==> m[k := m[k]] == m
  {
  }

  lemma AlterColumn(l: Snapshot, r: Snapshot, listing: seq<ColumnKey>, db: Snapshot, k: ColumnKey)
    requires k in l.columns && k in r.columns && k in db.columns && db.columns[k] == r.columns[k] &&
             k.table in db.tables
    requires l.columns[k].udt != r.columns[k].udt ==>
               && l.columns[k].udt in db.objects && Cast(r.columns[k].udt, l.columns[k].udt) in db.casts
               && Pin(k, l.columns[k].udt) !in db.pinned && !ModifierNeeded(db.indexes, k)
    requires l.columns[k].nullable && !r.columns[k].nullable ==> k !in db.required
    ensures var lc, rc := l.columns[k], r.columns[k];
            ExecuteAll(db, StatementsOf(ChangedColumn(k, lc, rc), l, listing)) ==
            Some(db.(columns := db.columns[k := MergedColumn(lc, rc)]))
  {
    var lc, rc := l.columns[k], r.columns[k];
    var retype := AlterType(k, lc.udt, lc.length);
    var renull := if lc.nullable then DropNotNull(k) else SetNotNull(k);
    UpdateTwice(db.columns, k, rc.(udt := lc.udt, length := lc.length, modifier := ""), MergedColumn(lc, rc));
    if lc.nullable == rc.nullable {
      SingleStatement(db, retype);
    } else if lc.udt == rc.udt {
      SingleStatement(db, renull);
    } else {
      TwoStatements(db, retype, renull);
      assert StatementsOf(ChangedColumn(k, lc, rc), l, listing) == [retype, renull];
    }
  }

  /** What creating the index needs. */
  ghost predicate CanBeMade(db: Snapshot, i: Index) {
    && HostExists(db.tables, db.objects, i.table, i.host)
    && Available(db.objects, Offers(db.routines), i.uses) && HasModifiers(db.columns, i)
  }

  lemma ReplaceIndex(db: Snapshot, n: string, i: Index)
    requires CanBeMade(db, i) && (n in db.indexes ==> !db.indexes[n].backs)
    ensures ExecuteAll(db, [DropIndexIfExists(n), CreateIndex(n, i)]) ==
            Some(db.(indexes := db.indexes[n := Made(i)]))
  {
    UpdateTwice(db.indexes, n, Made(i), Made(i));
    TwoStatements(db, DropIndexIfExists(n), CreateIndex(n, i));
  }

  lemma ReplaceTrigger(db: Snapshot, k: TriggerKey, g: Trigger)
    requires HostExists(db.tables, db.objects, k.table, g.host) && Available(db.objects, Offers(db.routines), g.uses)
    ensures ExecuteAll(db, [DropTriggerIfExists(k), CreateTrigger(k, g)]) == Some(db.(triggers := db.triggers[k := g]))
  {
    UpdateTwice(db.triggers, k, g, g);
    TwoStatements(db, DropTriggerIfExists(k), CreateTrigger(k, g));
  }

  lemma IndexPlan(l: Snapshot, r: Snapshot, listing: seq<ColumnKey>, n: string)
    requires n in l.indexes
    ensures Plan(IndexOps(l, r, n), l, listing) ==
            if IndexOps(l, r, n) == [] then []
            else if n in r.indexes then [DropIndexIfExists(n), CreateIndex(n, l.indexes[n])]
            else [CreateIndex(n, l.indexes[n])]
  {
    if n !in r.indexes {
      PlanOne(NewIndex(n, l.indexes[n]), l, listing);
    } else if l.indexes[n].definition != r.indexes[n].definition {
      PlanOne(ChangedIndex(n, l.indexes[n]), l, listing);
    }
  }

  lemma RunIndexOps(l: Snapshot, r: Snapshot, listing: seq<ColumnKey>, db: Snapshot, n: string)
    requires n in l.indexes && (n in db.indexes <==> n in r.indexes)
    requires IndexOps(l, r, n) != [] ==> CanBeMade(db, l.indexes[n]) && (n in db.indexes ==> !db.indexes[n].backs)
    ensures var ops := IndexOps(l, r, n);
            ExecuteAll(db, Plan(ops, l, listing)) ==
            Some(if ops == [] then db else db.(indexes := db.indexes[n := Made(l.indexes[n])]))
  {
    IndexPlan(l, r, listing, n);
    if IndexOps(l, r, n) == [] {
    } else if n in r.indexes {
      ReplaceIndex(db, n, l.indexes[n]);
    } else {
      SingleStatement(db, CreateIndex(n, l.indexes[n]));
    }
  }

  /** After the statements on tables and columns the modifiers are those of the columns that
      were left alone. */
  lemma ModifiersLeft(l: Snapshot, r: Snapshot, columns: map<ColumnKey, Column>, k: ColumnKey)
    requires forall t :: t in l.tables && t !in r.tables ==> TableReady(l, r, t)
    requires columns == ColumnsAt(l, r, Everything(l, r).tables, Everything(l, r).columns)
    ensures k in columns && columns[k].modifier != "" <==> Modified(l, r, k)
  {
    if k.table !in r.tables { assert k in r.columns ==> RelationExists(r, k.table); }
  }

  lemma IndexStep(l: Snapshot, r: Snapshot, listing: seq<ColumnKey>, d: Done, n: string)
    requires n in l.indexes && n !in d.indexes && IndexReady(l, r, n)
    requires forall t :: t in l.tables && t !in r.tables ==> TableReady(l, r, t)
    requires d.tables == Everything(l, r).tables && d.columns == Everything(l, r).columns && d.routines == {}
    ensures ExecuteAll(Stage(l, r, d), Plan(IndexOps(l, r, n), l, listing)) ==
            Some(Stage(l, r, d.(indexes := d.indexes + {n})))
  {
    var before, after := IndexesAt(l, r, d.indexes), IndexesAt(l, r, d.indexes + {n});
    assert after == if IndexOps(l, r, n) == [] then before else before[n := Made(l.indexes[n])];
    if IndexOps(l, r, n) != [] { ReadyCanBeMade(l, r, d, n); }
    RunIndexOps(l, r, listing, Stage(l, r, d), n);
  }

  lemma ReadyCanBeMade(l: Snapshot, r: Snapshot, d: Done, n: string)
    requires n in l.indexes && IndexReady(l, r, n) && IndexOps(l, r, n) != []
    requires forall t :: t in l.tables && t !in r.tables ==> TableReady(l, r, t)
    requires d.tables == Everything(l, r).tables && d.columns == Everything(l, r).columns && d.routines == {}
    ensures CanBeMade(Stage(l, r, d), l.indexes[n])
  {
    var db, i := Stage(l, r, d), l.indexes[n];
    NothingReplaced(l, r);
    forall c | c in i.modified
      ensures ColumnKey(i.table, c) in db.columns && db.columns[ColumnKey(i.table, c)].modifier != ""
    {
      ModifiersLeft(l, r, db.columns, ColumnKey(i.table, c));
    }
  }

  lemma RoutinePlan(l: Snapshot, r: Snapshot, listing: seq<ColumnKey>, f: Sig)
    requires f in l.routines
    ensures Plan(RoutineOps(l, r, f), l, listing) ==
            if RoutineOps(l, r, f) == [] then [] else [CreateOrReplaceRoutine(f, l.routines[f])]
  {
    if f !in r.routines {
      PlanOne(NewRoutine(f, l.routines[f]), l, listing);
    } else if l.routines[f].hash != r.routines[f].hash {
      PlanOne(ChangedRoutine(f, l.routines[f]), l, listing);
    }
  }

  /** The function can be created or replaced. */
  ghost predicate CanReplace(db: Snapshot, f: Sig, body: Routine) {
    && (forall g :: g in db.routines && IdentityOf(g) == IdentityOf(f) ==> Replaces(g, db.routines[g], f, body))
    && Available(db.objects, Offers(Others(db.routines, IdentityOf(f))[f := body]), body.uses)
  }

  lemma RunRoutineOps(l: Snapshot, r: Snapshot, listing: seq<ColumnKey>, db: Snapshot, f: Sig)
    requires f in l.routines && (RoutineOps(l, r, f) != [] ==> CanReplace(db, f, l.routines[f]))
    ensures var ops := RoutineOps(l, r, f);
            ExecuteAll(db, Plan(ops, l, listing)) ==
            Some(if ops == [] then db else db.(routines := Others(db.routines, IdentityOf(f))[f := l.routines[f]]))
  {
    RoutinePlan(l, r, listing, f);
    assert ExecuteAll(db, []) == Some(db);
    if RoutineOps(l, r, f) != [] { ReplaceRoutine(db, f, l.routines[f]); }
  }

  lemma ReplaceRoutine(db: Snapshot, f: Sig, body: Routine)
    requires CanReplace(db, f, body)
    ensures ExecuteAll(db, [CreateOrReplaceRoutine(f, body)]) ==
            Some(db.(routines := Others(db.routines, IdentityOf(f))[f := body]))
  {
    var s := CreateOrReplaceRoutine(f, body);
    SingleStatement(db, s);
    assert Execute(db, s) == Some(db.(routines := Others(db.routines, IdentityOf(f))[f := body])) by {
      ReplacementSucceeds(db, f, body);
    }
  }

  lemma ReplacementSucceeds(db: Snapshot, f: Sig, body: Routine)
    requires CanReplace(db, f, body)
    ensures Execute(db, CreateOrReplaceRoutine(f, body)) ==
            Some(db.(routines := Others(db.routines, IdentityOf(f))[f := body]))
  {
    assert forall g :: g in db.routines && IdentityOf(g) == IdentityOf(f) ==> Replaces(g, db.routines[g], f, body);
  }

  lemma NextRoutines(l: Snapshot, r: Snapshot, done: set<Sig>, f: Sig)
    requires Unambiguous(l.routines) && Unambiguous(r.routines) && done <= l.routines.Keys
    requires f in l.routines && f !in done
    ensures RoutineOps(l, r, f) == [] ==> RoutinesAt(l, r, done + {f}) == RoutinesAt(l, r, done)
    ensures RoutineOps(l, r, f) != [] ==>
              RoutinesAt(l, r, done + {f}) == Others(RoutinesAt(l, r, done), IdentityOf(f))[f := l.routines[f]]
  {
    if RoutineOps(l, r, f) == [] {
      SameRoutines(l, r, done, f);
    } else {
      OneRoutineMore(l, r, done, f);
    }
  }

  lemma SameRoutines(l: Snapshot, r: Snapshot, done: set<Sig>, f: Sig)
    requires Unambiguous(l.routines) && Unambiguous(r.routines) && done <= l.routines.Keys
    requires f in l.routines && f !in done && RoutineOps(l, r, f) == []
    ensures RoutinesAt(l, r, done + {f}) == RoutinesAt(l, r, done)
  {
    var before, after := RoutinesAt(l, r, done), RoutinesAt(l, r, done + {f});
    forall g ensures g in after <==> g in before {
      NextRoutine(l, r, done, f, g);
    }
    assert after.Keys == before.Keys;
    assert forall g :: g in after ==> after[g] == before[g];
  }

  lemma OneRoutineMore(l: Snapshot, r: Snapshot, done: set<Sig>, f: Sig)
    requires Unambiguous(l.routines) && Unambiguous(r.routines) && done <= l.routines.Keys
    requires f in l.routines && f !in done && RoutineOps(l, r, f) != []
    ensures RoutinesAt(l, r, done + {f}) == Others(RoutinesAt(l, r, done), IdentityOf(f))[f := l.routines[f]]
  {
    var after, expected := RoutinesAt(l, r, done + {f}),
                           Others(RoutinesAt(l, r, done), IdentityOf(f))[f := l.routines[f]];
    forall g ensures g in after <==> g in expected {
      NextRoutine(l, r, done, f, g);
    }
    assert after.Keys == expected.Keys;
    assert forall g :: g in after ==> after[g] == expected[g];
  }

  lemma SameIdentityIsRemote(l: Snapshot, r: Snapshot, done: set<Sig>, f: Sig, g: Sig)
    requires Unambiguous(l.routines) && done <= l.routines.Keys && f in l.routines && f !in done
    requires g in RoutinesAt(l, r, done) && IdentityOf(g) == IdentityOf(f)
    ensures g in r.routines && RoutinesAt(l, r, done)[g] == r.routines[g]
  {
  }

  lemma NextRoutine(l: Snapshot, r: Snapshot, done: set<Sig>, f: Sig, g: Sig)
    requires Unambiguous(l.routines) && Unambiguous(r.routines) && done <= l.routines.Keys
    requires f in l.routines && f !in done
    ensures g in RoutinesAt(l, r, done + {f}) <==>
            if IdentityOf(g) == IdentityOf(f) then g == f else g in RoutinesAt(l, r, done)
    ensures RoutineOps(l, r, f) == [] ==> f in RoutinesAt(l, r, done)
    ensures RoutineOps(l, r, f) == [] && IdentityOf(g) == IdentityOf(f) ==> (g in RoutinesAt(l, r, done) <==> g == f)
  {
    DisplacedMore(l, done, f, g);
    assert !Displaced(l, done, f);
  }

  lemma DisplacedMore(l: Snapshot, done: set<Sig>, f: Sig, g: Sig)
    requires f in l.routines
    ensures Displaced(l, done + {f}, g) <==> Displaced(l, done, g) || (f != g && IdentityOf(f) == IdentityOf(g))
  {
    if Displaced(l, done, g) {
      var h :| h in done && h in l.routines && h != g && IdentityOf(h) == IdentityOf(g);
      assert h in done + {f};
    }
    assert f in done + {f};
  }

  lemma ReadyCanReplace(l: Snapshot, r: Snapshot, d: Done, order: seq<Sig>, i: nat)
    requires i < |order| && RoutineReady(l, r, order, i) && order[i] in l.routines && RoutineOps(l, r, order[i]) != []
    requires Unambiguous(l.routines) && Unambiguous(r.routines)
    requires d.routines == Elements(order[..i]) <= l.routines.Keys && order[i] !in d.routines
    ensures CanReplace(Stage(l, r, d), order[i], l.routines[order[i]])
  {
    var f, fs := order[i], RoutinesAt(l, r, d.routines);
    OneRoutineMore(l, r, d.routines, f);
    forall g | g in fs && IdentityOf(g) == IdentityOf(f) ensures Replaces(g, fs[g], f, l.routines[f]) {
      SameIdentityIsRemote(l, r, d.routines, f, g);
    }
  }

  lemma RoutineStep(l: Snapshot, r: Snapshot, listing: seq<ColumnKey>, d: Done, order: seq<Sig>, i: nat)
    requires i < |order| && RoutineReady(l, r, order, i) && Enumerates(order, l.routines.Keys)
    requires Unambiguous(l.routines) && Unambiguous(r.routines)
    requires d.routines == Elements(order[..i])
    ensures ExecuteAll(Stage(l, r, d), Plan(RoutineOps(l, r, order[i]), l, listing)) ==
            Some(Stage(l, r, d.(routines := d.routines + {order[i]})))
  {
    var f := order[i];
    assert f in order && f !in order[..i];
    assert d.routines <= l.routines.Keys by {
      assert forall g :: g in order[..i] ==> g in order;
    }
    NextRoutines(l, r, d.routines, f);
    if RoutineOps(l, r, f) != [] { ReadyCanReplace(l, r, d, order, i); }
    RunRoutineOps(l, r, listing, Stage(l, r, d), f);
  }

  lemma RunTriggerOps(l: Snapshot, r: Snapshot, listing: seq<ColumnKey>, db: Snapshot, k: TriggerKey)
    requires k in l.triggers && (k in db.triggers <==> k in r.triggers)
    requires TriggerOps(l, r, k) != [] ==>
               && l.triggers[k].definition != "" && HostExists(db.tables, db.objects, k.table, l.triggers[k].host)
               && Available(db.objects, Offers(db.routines), l.triggers[k].uses)
    ensures var ops := TriggerOps(l, r, k);
            ExecuteAll(db, Plan(ops, l, listing)) ==
            Some(if ops == [] then db else db.(triggers := db.triggers[k := l.triggers[k]]))
  {
    var g := l.triggers[k];
    if k !in r.triggers {
      PlanOne(NewTrigger(k, g), l, listing);
      assert Plan(TriggerOps(l, r, k), l, listing) == [CreateTrigger(k, g)];
      SingleStatement(db, CreateTrigger(k, g));
    } else if g.action != r.triggers[k].action {
      PlanOne(ChangedTrigger(k, g), l, listing);
      assert Plan(TriggerOps(l, r, k), l, listing) == [DropTriggerIfExists(k), CreateTrigger(k, g)];
      ReplaceTrigger(db, k, g);
    }
  }

  lemma NextTriggers(l: Snapshot, r: Snapshot, done: set<TriggerKey>, k: TriggerKey)
    requires k in l.triggers && k !in done
    ensures var before, after := TriggersAt(l, r, done), TriggersAt(l, r, done + {k});
            && after == (if TriggerOps(l, r, k) == [] then before else before[k := l.triggers[k]])
            && (k in before <==> k in r.triggers)
  {
  }

  lemma TriggerStep(l: Snapshot, r: Snapshot, listing: seq<ColumnKey>, d: Done, k: TriggerKey)
    requires TriggerReady(l, r, k)
    requires l.tables <= r.tables + d.tables && l.routines.Keys == d.routines
    requires k in l.triggers && k !in d.triggers
    ensures ExecuteAll(Stage(l, r, d), Plan(TriggerOps(l, r, k), l, listing)) ==
            Some(Stage(l, r, d.(triggers := d.triggers + {k})))
  {
    NextTriggers(l, r, d.triggers, k);
    RunTriggerOps(l, r, listing, Stage(l, r, d), k);
  }

  // ----- The whole script

  ghost function Segment<K>(order: seq<K>, rule: K -> seq<Op>, l: Snapshot, listing: seq<ColumnKey>): seq<Statement> {
    Plan(Flat(order, rule), l, listing)
  }

  /** `RunThrough` for the statements of one kind of operation. */
  lemma RunSegment<K(!new)>(order: seq<K>, keys: set<K>, rule: K -> seq<Op>, l: Snapshot, listing: seq<ColumnKey>,
                            stage: set<K> -> Snapshot)
    requires Enumerates(order, keys)
    requires forall i :: 0 <= i < |order| ==>
               ExecuteAll(stage(Elements(order[..i])), Plan(rule(order[i]), l, listing)) ==
               Some(stage(Elements(order[..i]) + {order[i]}))
    ensures ExecuteAll(stage({}), Segment(order, rule, l, listing)) == Some(stage(keys))
  {
    var f := Then(rule, StatementRule(l, listing));
    forall i | 0 <= i < |order|
      ensures ExecuteAll(stage(Elements(order[..i])), f(order[i])) == Some(stage(Elements(order[..i]) + {order[i]}))
    {
      assert f(order[i]) == Plan(rule(order[i]), l, listing);
    }
    RunThrough(order, f, stage, |order|);
    assert order[..|order|] == order;
    FlatFlat(order, rule, StatementRule(l, listing));
    assert Elements(order) == keys;
  }

  ghost function TableStages(l: Snapshot, r: Snapshot): set<string> -> Snapshot {
    done => Stage(l, r, NOTHING.(tables := done))
  }

  ghost function ColumnStages(l: Snapshot, r: Snapshot): set<ColumnKey> -> Snapshot {
    done => Stage(l, r, NOTHING.(tables := l.tables - r.tables, columns := done))
  }

  ghost function IndexStages(l: Snapshot, r: Snapshot): set<string> -> Snapshot {
    done => Stage(l, r, Everything(l, r).(indexes := done, routines := {}, triggers := {}))
  }

  ghost function RoutineStages(l: Snapshot, r: Snapshot): set<Sig> -> Snapshot {
    done => Stage(l, r, Everything(l, r).(routines := done, triggers := {}))
  }

  ghost function TriggerStages(l: Snapshot, r: Snapshot): set<TriggerKey> -> Snapshot {
    done => Stage(l, r, Everything(l, r).(triggers := done))
  }

  lemma TableSegment(l: Snapshot, r: Snapshot, listing: seq<ColumnKey>, v: Visit)
    requires Migratable(l, r, v.routines) && ListsColumns(listing, l) && Complete(v, l, r)
    ensures ExecuteAll(r, Segment(v.tables, TableRule(l, r), l, listing)) == Some(ColumnStages(l, r)({}))
  {
    forall i | 0 <= i < |v.tables|
      ensures var done, k := Elements(v.tables[..i]), v.tables[i];
              ExecuteAll(TableStages(l, r)(done), Plan(TableRule(l, r)(k), l, listing)) ==
              Some(TableStages(l, r)(done + {k}))
    {
      var done, k := Elements(v.tables[..i]), v.tables[i];
      assert k in v.tables && k !in done;
      TableStep(l, r, listing, done, k);
    }
    RunSegment(v.tables, l.tables - r.tables, TableRule(l, r), l, listing, TableStages(l, r));
    StageOfNothing(l, r);
  }

  lemma ColumnSegment(l: Snapshot, r: Snapshot, listing: seq<ColumnKey>, v: Visit)
    requires Migratable(l, r, v.routines) && Complete(v, l, r)
    ensures ExecuteAll(ColumnStages(l, r)({}), Segment(v.columns, ColumnRule(l, r), l, listing)) ==
            Some(IndexStages(l, r)({}))
  {
    forall i | 0 <= i < |v.columns|
      ensures var done, k := Elements(v.columns[..i]), v.columns[i];
              ExecuteAll(ColumnStages(l, r)(done), Plan(ColumnRule(l, r)(k), l, listing)) ==
              Some(ColumnStages(l, r)(done + {k}))
    {
      var done, k := Elements(v.columns[..i]), v.columns[i];
      assert k in v.columns && k !in done;
      ColumnStep(l, r, listing, NOTHING.(tables := l.tables - r.tables, columns := done), k);
    }
    RunSegment(v.columns, l.columns.Keys + r.columns.Keys, ColumnRule(l, r), l, listing, ColumnStages(l, r));
  }

  lemma IndexSegment(l: Snapshot, r: Snapshot, listing: seq<ColumnKey>, v: Visit)
    requires Unambiguous(l.routines) && Migratable(l, r, v.routines) && Complete(v, l, r)
    ensures ExecuteAll(IndexStages(l, r)({}), Segment(v.indexes, IndexRule(l, r), l, listing)) ==
            Some(RoutineStages(l, r)({}))
  {
    forall i | 0 <= i < |v.indexes|
      ensures var done, k := Elements(v.indexes[..i]), v.indexes[i];
              ExecuteAll(IndexStages(l, r)(done), Plan(IndexRule(l, r)(k), l, listing)) ==
              Some(IndexStages(l, r)(done + {k}))
    {
      var done, k := Elements(v.indexes[..i]), v.indexes[i];
      assert k in v.indexes && k !in done;
      IndexStep(l, r, listing, Everything(l, r).(indexes := done, routines := {}, triggers := {}), k);
    }
    RunSegment(v.indexes, l.indexes.Keys, IndexRule(l, r), l, listing, IndexStages(l, r));
  }

  lemma RoutineSegment(l: Snapshot, r: Snapshot, listing: seq<ColumnKey>, v: Visit)
    requires Unambiguous(l.routines) && Unambiguous(r.routines)
    requires Migratable(l, r, v.routines) && Complete(v, l, r)
    ensures ExecuteAll(RoutineStages(l, r)({}), Segment(v.routines, RoutineRule(l, r), l, listing)) ==
            Some(TriggerStages(l, r)({}))
  {
    forall i | 0 <= i < |v.routines|
      ensures var done, k := Elements(v.routines[..i]), v.routines[i];
              ExecuteAll(RoutineStages(l, r)(done), Plan(RoutineRule(l, r)(k), l, listing)) ==
              Some(RoutineStages(l, r)(done + {k}))
    {
      var done, k := Elements(v.routines[..i]), v.routines[i];
      assert k in v.routines && k !in done;
      RoutineStep(l, r, listing, Everything(l, r).(routines := done, triggers := {}), v.routines, i);
    }
    RunSegment(v.routines, l.routines.Keys, RoutineRule(l, r), l, listing, RoutineStages(l, r));
  }

  lemma TriggerSegment(l: Snapshot, r: Snapshot, listing: seq<ColumnKey>, v: Visit)
    requires Unambiguous(l.routines) && Migratable(l, r, v.routines) && Complete(v, l, r)
    ensures ExecuteAll(TriggerStages(l, r)({}), Segment(v.triggers, TriggerRule(l, r), l, listing)) ==
            Some(Stage(l, r, Everything(l, r)))
  {
    forall i | 0 <= i < |v.triggers|
      ensures var done, k := Elements(v.triggers[..i]), v.triggers[i];
              ExecuteAll(TriggerStages(l, r)(done), Plan(TriggerRule(l, r)(k), l, listing)) ==
              Some(TriggerStages(l, r)(done + {k}))
    {
      var done, k := Elements(v.triggers[..i]), v.triggers[i];
      assert k in v.triggers && k !in done;
      TriggerStep(l, r, listing, Everything(l, r).(triggers := done), k);
    }
    RunSegment(v.triggers, l.triggers.Keys, TriggerRule(l, r), l, listing, TriggerStages(l, r));
  }

  lemma PlanInSegments(l: Snapshot, r: Snapshot, listing: seq<ColumnKey>, v: Visit)
    ensures Plan(DiffIn(v, l, r), l, listing) ==
            Segment(v.tables, TableRule(l, r), l, listing) + Segment(v.columns, ColumnRule(l, r), l, listing) +
            Segment(v.indexes, IndexRule(l, r), l, listing) + Segment(v.routines, RoutineRule(l, r), l, listing) +
            Segment(v.triggers, TriggerRule(l, r), l, listing)
  {
    var rule := StatementRule(l, listing);
    var a, b := Flat(v.tables, TableRule(l, r)), Flat(v.columns, ColumnRule(l, r));
    var c, d, e := Flat(v.indexes, IndexRule(l, r)), Flat(v.routines, RoutineRule(l, r)),
                   Flat(v.triggers, TriggerRule(l, r));
    FlatConcat(a, b, rule);
    FlatConcat(a + b, c, rule);
    FlatConcat(a + b + c, d, rule);
    FlatConcat(a + b + c + d, e, rule);
  }

  /** The script runs without error and leaves exactly the last stage. */
  lemma ScriptReaches(l: Snapshot, r: Snapshot, listing: seq<ColumnKey>, v: Visit)
    requires Unambiguous(l.routines) && Unambiguous(r.routines) && ListsColumns(listing, l) && Complete(v, l, r)
    requires Migratable(l, r, v.routines)
    ensures ExecuteAll(r, Plan(DiffIn(v, l, r), l, listing)) == Some(Stage(l, r, Everything(l, r)))
  {
    PlanInSegments(l, r, listing, v);
    var a, b := Segment(v.tables, TableRule(l, r), l, listing), Segment(v.columns, ColumnRule(l, r), l, listing);
    var c, d := Segment(v.indexes, IndexRule(l, r), l, listing), Segment(v.routines, RoutineRule(l, r), l, listing);
    var e := Segment(v.triggers, TriggerRule(l, r), l, listing);
    TableSegment(l, r, listing, v);
    ColumnSegment(l, r, listing, v);
    ExecuteConcat(r, a, b);
    IndexSegment(l, r, listing, v);
    ExecuteConcat(r, a + b, c);
    RoutineSegment(l, r, listing, v);
    ExecuteConcat(r, a + b + c, d);
    TriggerSegment(l, r, listing, v);
    ExecuteConcat(r, a + b + c + d, e);
  }

  // ----- Convergence

  lemma LastColumns(l: Snapshot, r: Snapshot, columns: map<ColumnKey, Column>)
    requires forall t :: t in l.tables && t !in r.tables ==> TableReady(l, r, t)
    requires columns == ColumnsAt(l, r, Everything(l, r).tables, Everything(l, r).columns)
    ensures forall k :: k in l.columns && k.table in l.tables ==>
              k in columns && columns[k].udt == l.columns[k].udt && columns[k].nullable == l.columns[k].nullable
    ensures forall k :: k in r.columns && (k !in l.columns || k.table !in l.tables) ==>
              k in columns && columns[k] == r.columns[k]
  {
    forall k | k in r.columns && (k !in l.columns || k.table !in l.tables)
      ensures k in columns && columns[k] == r.columns[k]
    {
      assert k.table in l.tables - r.tables ==> RelationExists(r, k.table);
    }
  }

  lemma LastIndexes(l: Snapshot, r: Snapshot)
    ensures var ix := IndexesAt(l, r, l.indexes.Keys);
            && (forall n :: n in l.indexes ==> n in ix && ix[n].definition == l.indexes[n].definition)
            && (forall n :: n in r.indexes && n !in l.indexes ==> n in ix && ix[n] == r.indexes[n])
    ensures var ts := TriggersAt(l, r, l.triggers.Keys);
            && (forall k :: k in l.triggers ==> k in ts && ts[k].action == l.triggers[k].action)
            && (forall k :: k in r.triggers && k !in l.triggers ==> k in ts && ts[k] == r.triggers[k])
  {
  }

  lemma LastRoutines(l: Snapshot, r: Snapshot)
    ensures var fs := RoutinesAt(l, r, l.routines.Keys);
            && (forall f :: f in l.routines ==> f in fs && fs[f].hash == l.routines[f].hash)
            && (NoneDisplaced(l, r) <==>
                forall f :: f in r.routines && f !in l.routines ==> f in fs && fs[f] == r.routines[f])
  {
  }

  lemma LastStageConverged(l: Snapshot, r: Snapshot)
    requires forall t :: t in l.tables && t !in r.tables ==> TableReady(l, r, t)
    ensures Converged(l, Stage(l, r, Everything(l, r)))
  {
    LastColumns(l, r, ColumnsAt(l, r, Everything(l, r).tables, Everything(l, r).columns));
    LastIndexes(l, r);
    LastRoutines(l, r);
  }

  lemma LastStageKeeps(l: Snapshot, r: Snapshot)
    requires forall t :: t in l.tables && t !in r.tables ==> TableReady(l, r, t)
    ensures KeepsOthers(l, r, Stage(l, r, Everything(l, r)))
    ensures KeepsRemote(l, r, Stage(l, r, Everything(l, r))) <==> NoneDisplaced(l, r)
  {
    LastColumns(l, r, ColumnsAt(l, r, Everything(l, r).tables, Everything(l, r).columns));
    LastIndexes(l, r);
    LastRoutines(l, r);
  }

  lemma {:induction false} FlatOfNothing<K, T>(order: seq<K>, f: K -> seq<T>)
    requires forall k :: k in order ==> f(k) == []
    ensures Flat(order, f) == []
  {
    if order != [] {
      FlatOfNothing(order[..|order| - 1], f);
    }
  }

  lemma SegmentOfNothing<K>(order: seq<K>, rule: K -> seq<Op>, l: Snapshot, listing: seq<ColumnKey>)
    requires forall k :: k in order ==> Plan(rule(k), l, listing) == []
    ensures Segment(order, rule, l, listing) == []
  {
    var f := Then(rule, StatementRule(l, listing));
    forall k | k in order ensures f(k) == [] {
      assert f(k) == Plan(rule(k), l, listing);
    }
    FlatOfNothing(order, f);
    FlatFlat(order, rule, StatementRule(l, listing));
  }

  /** Against a converged schema the diff may still list columns whose defaults
      differ, but no statement comes of it. */
  lemma NothingLeftToDo(l: Snapshot, db: Snapshot, listing: seq<ColumnKey>, v: Visit)
    requires Converged(l, db) && Complete(v, l, db)
    ensures Plan(DiffIn(v, l, db), l, listing) == []
  {
    forall k | k in v.columns ensures Plan(ColumnOps(l, db, k), l, listing) == [] {
      if ColumnOps(l, db, k) != [] {
        PlanOne(ChangedColumn(k, l.columns[k], db.columns[k]), l, listing);
      }
    }
    SegmentOfNothing(v.tables, TableRule(l, db), l, listing);
    SegmentOfNothing(v.columns, ColumnRule(l, db), l, listing);
    SegmentOfNothing(v.indexes, IndexRule(l, db), l, listing);
    SegmentOfNothing(v.routines, RoutineRule(l, db), l, listing);
    SegmentOfNothing(v.triggers, TriggerRule(l, db), l, listing);
    PlanInSegments(l, db, listing, v);
  }

  lemma {:induction false} FromSome<K, T>(order: seq<K>, f: K -> seq<T>, x: T) returns (k: K)
    requires x in Flat(order, f)
    ensures k in order && x in f(k)
  {
    var init, last := order[..|order| - 1], order[|order| - 1];
    if x in f(last) {
      k := last;
    } else {
      k := FromSome(init, f, x);
    }
  }

  // ----- What a migration that is not feasible leaves undone

  /** A statement of a segment comes from an operation for one of its names. */
  lemma SegmentSource<K>(order: seq<K>, rule: K -> seq<Op>, l: Snapshot, listing: seq<ColumnKey>, s: Statement)
    returns (k: K, op: Op)
    requires s in Segment(order, rule, l, listing)
    ensures k in order && op in rule(k) && s in StatementsOf(op, l, listing)
  {
    op := FromSome(Flat(order, rule), StatementRule(l, listing), s);
    k := FromSome(order, rule, op);
  }

  /** The statements on tables and columns, which come first. */
  ghost predicate First(l: Snapshot, r: Snapshot, listing: seq<ColumnKey>, s: Statement) {
    match s
    case CreateTableIfNotExists(t, defs) => t in l.tables && t !in r.tables && defs == DefsOf(l, listing, t) != []
    case AddColumnIfNotExists(k, c) => k.table in r.tables && k in l.columns && c == AsPrinted(l.columns[k])
    case AlterType(k, udt, _) => k in l.columns && udt == l.columns[k].udt
    case DropNotNull(_) => true
    case SetNotNull(_) => true
    case _ => false
  }

  /** The statements on functions and triggers, which come last. */
  ghost predicate Late(l: Snapshot, r: Snapshot, s: Statement) {
    || (s.CreateOrReplaceRoutine? && s.sig in l.routines && s.routine == l.routines[s.sig])
    || ((s.CreateTrigger? || s.DropTriggerIfExists?) && s.trigger in l.triggers &&
        l.triggers[s.trigger].definition != "")
  }

  ghost function FirstScript(l: Snapshot, r: Snapshot, listing: seq<ColumnKey>, v: Visit): seq<Statement> {
    Segment(v.tables, TableRule(l, r), l, listing) + Segment(v.columns, ColumnRule(l, r), l, listing)
  }

  ghost function IndexScript(l: Snapshot, r: Snapshot, listing: seq<ColumnKey>, v: Visit): seq<Statement> {
    Segment(v.indexes, IndexRule(l, r), l, listing)
  }

  ghost function LateScript(l: Snapshot, r: Snapshot, listing: seq<ColumnKey>, v: Visit): seq<Statement> {
    Segment(v.routines, RoutineRule(l, r), l, listing) + Segment(v.triggers, TriggerRule(l, r), l, listing)
  }

  lemma FirstTable(l: Snapshot, r: Snapshot, listing: seq<ColumnKey>, v: Visit, s: Statement)
    requires s in Segment(v.tables, TableRule(l, r), l, listing)
    ensures First(l, r, listing, s)
  {
    var k, op := SegmentSource(v.tables, TableRule(l, r), l, listing, s);
    assert op == NewTable(k);
  }

  lemma FirstColumn(l: Snapshot, r: Snapshot, listing: seq<ColumnKey>, v: Visit, s: Statement)
    requires s in Segment(v.columns, ColumnRule(l, r), l, listing)
    ensures First(l, r, listing, s)
  {
    var k, op := SegmentSource(v.columns, ColumnRule(l, r), l, listing, s);
    assert op in ColumnOps(l, r, k);
  }

  lemma FirstStatements(l: Snapshot, r: Snapshot, listing: seq<ColumnKey>, v: Visit, s: Statement)
    requires s in FirstScript(l, r, listing, v)
    ensures First(l, r, listing, s)
  {
    if s in Segment(v.tables, TableRule(l, r), l, listing) {
      FirstTable(l, r, listing, v, s);
    } else {
      FirstColumn(l, r, listing, v, s);
    }
  }

  lemma LateStatements(l: Snapshot, r: Snapshot, listing: seq<ColumnKey>, v: Visit, s: Statement)
    requires s in LateScript(l, r, listing, v)
    ensures Late(l, r, s)
  {
    if s in Segment(v.routines, RoutineRule(l, r), l, listing) {
      var k, op := SegmentSource(v.routines, RoutineRule(l, r), l, listing, s);
    } else {
      var k, op := SegmentSource(v.triggers, TriggerRule(l, r), l, listing, s);
    }
  }

  /** The first statements change nothing but tables and columns, and no relation disappears. */
  ghost predicate SameOutside(r: Snapshot, db: Snapshot) {
    && db.objects == r.objects && db.casts == r.casts && db.pinned == r.pinned && db.required == r.required
    && db.indexes == r.indexes && db.routines == r.routines && db.triggers == r.triggers && r.tables <= db.tables
    && forall k :: k in r.columns ==> k in db.columns
  }

  lemma FirstStep(l: Snapshot, r: Snapshot, listing: seq<ColumnKey>, db: Snapshot, s: Statement)
    requires SameOutside(r, db) && First(l, r, listing, s) && Execute(db, s).Some?
    ensures SameOutside(r, Execute(db, s).value)
  {
  }

  /** Nothing that is not ready gets done by the first statements, and no column gets a
      modifier. */
  ghost predicate Undone(l: Snapshot, r: Snapshot, db: Snapshot) {
    && SameOutside(r, db) && db.tables <= r.tables + l.tables
    && (forall t :: t in l.tables && t !in r.tables && !TableReady(l, r, t) ==> t !in db.tables)
    && (forall k :: !AddReady(l, r, k) ==> k !in db.columns)
    && (forall k :: !AlterReady(l, r, k) ==> k in db.columns && db.columns[k].udt == r.columns[k].udt)
    && (forall k :: !NullReady(l, r, k) ==> k in db.columns && !db.columns[k].nullable)
    && (forall k :: k in db.columns && db.columns[k].modifier != "" ==> k in r.columns && r.columns[k].modifier != "")
  }

  lemma UnreadyTable(l: Snapshot, r: Snapshot, listing: seq<ColumnKey>, db: Snapshot, t: string)
    requires ListsColumns(listing, l) && SameOutside(r, db) && t !in db.tables && t in l.tables && t !in r.tables &&
             !TableReady(l, r, t)
    requires DefsOf(l, listing, t) != []
    ensures var after := Execute(db, CreateTableIfNotExists(t, DefsOf(l, listing, t)));
            after == None || after == Some(db)
  {
    NoColumnsNoDefs(l, listing, t);
    DefsReadyIff(l, listing, t, db.objects, Offers(db.routines));
  }

  lemma CreateKeepsUndone(l: Snapshot, r: Snapshot, listing: seq<ColumnKey>, db: Snapshot, t: string,
                          defs: seq<ColumnDef>)
    requires ListsColumns(listing, l) && Undone(l, r, db) && First(l, r, listing, CreateTableIfNotExists(t, defs))
    requires Execute(db, CreateTableIfNotExists(t, defs)).Some?
    ensures Undone(l, r, Execute(db, CreateTableIfNotExists(t, defs)).value)
  {
    var after := Execute(db, CreateTableIfNotExists(t, defs)).value;
    FirstStep(l, r, listing, db, CreateTableIfNotExists(t, defs));
    if t in l.tables && !TableReady(l, r, t) && t !in db.tables { UnreadyTable(l, r, listing, db, t); }
    forall k | !AddReady(l, r, k) ensures k !in after.columns {
      DefsDefine(l, listing, t, k);
    }
    forall k | !AlterReady(l, r, k) ensures k in after.columns && after.columns[k].udt == r.columns[k].udt {
      DefsDefine(l, listing, t, k);
    }
    forall k | !NullReady(l, r, k) ensures k in after.columns && !after.columns[k].nullable {
      DefsDefine(l, listing, t, k);
    }
    forall k | k in after.columns && after.columns[k].modifier != "" ensures k in r.columns &&
    r.columns[k].modifier != "" {
      DefsDefine(l, listing, t, k);
    }
  }

  lemma AddKeepsUndone(l: Snapshot, r: Snapshot, listing: seq<ColumnKey>, db: Snapshot, s: Statement)
    requires Undone(l, r, db) && First(l, r, listing, s) && Execute(db, s).Some? && s.AddColumnIfNotExists?
    ensures Undone(l, r, Execute(db, s).value)
  {
    FirstStep(l, r, listing, db, s);
    if s.key !in db.columns {
      assert AddReady(l, r, s.key);
    }
  }

  lemma AlterKeepsUndone(l: Snapshot, r: Snapshot, listing: seq<ColumnKey>, db: Snapshot, s: Statement)
    requires Undone(l, r, db) && First(l, r, listing, s) && Execute(db, s).Some?
    requires s.AlterType? || s.DropNotNull? || s.SetNotNull?
    ensures Undone(l, r, Execute(db, s).value)
  {
    FirstStep(l, r, listing, db, s);
  }

  lemma {:induction false} FirstLeavesUndone(l: Snapshot, r: Snapshot, listing: seq<ColumnKey>, script: seq<Statement>)
    requires ListsColumns(listing, l) && forall s :: s in script ==> First(l, r, listing, s)
    ensures ExecuteAll(r, script).Some? ==> Undone(l, r, ExecuteAll(r, script).value)
  {
    if script == [] {
      NothingDoneYet(l, r);
    } else {
      var init, last := script[..|script| - 1], script[|script| - 1];
      FirstLeavesUndone(l, r, listing, init);
      assert last in script;
      if ExecuteAll(r, script).Some? {
        var db := ExecuteAll(r, init).value;
        match last {
          case CreateTableIfNotExists(t, defs) => CreateKeepsUndone(l, r, listing, db, t, defs);
          case AddColumnIfNotExists(_, _) => AddKeepsUndone(l, r, listing, db, last);
          case _ => AlterKeepsUndone(l, r, listing, db, last);
        }
      }
    }
  }

  lemma NothingDoneYet(l: Snapshot, r: Snapshot)
    ensures Undone(l, r, r)
  {
  }

  /** A column whose type was changed has no modifier afterwards. */
  lemma {:induction false} AlteredLosesModifier(l: Snapshot, r: Snapshot, listing: seq<ColumnKey>,
                                                script: seq<Statement>, s: Statement)
    requires s in script && s.AlterType? && forall e :: e in script ==> First(l, r, listing, e)
    ensures ExecuteAll(r, script).Some? ==>
              s.key in ExecuteAll(r, script).value.columns && ExecuteAll(r, script).value.columns[s.key].modifier == ""
  {
    var init, last := script[..|script| - 1], script[|script| - 1];
    assert last in script;
    if ExecuteAll(r, script).Some? && last != s {
      assert s in init;
      AlteredLosesModifier(l, r, listing, init, s);
      KeepsWithoutModifier(l, r, listing, ExecuteAll(r, init).value, last, s.key);
    }
  }

  lemma KeepsWithoutModifier(l: Snapshot, r: Snapshot, listing: seq<ColumnKey>, db: Snapshot, s: Statement,
                             k: ColumnKey)
    requires First(l, r, listing, s) && Execute(db, s).Some? && k in db.columns && db.columns[k].modifier == ""
    ensures k in Execute(db, s).value.columns && Execute(db, s).value.columns[k].modifier == ""
  {
    if s.CreateTableIfNotExists? { DefsDefine(l, listing, s.table, k); }
  }

  lemma {:induction false} InFlat<K, T>(order: seq<K>, f: K -> seq<T>, k: K, x: T)
    requires k in order && x in f(k)
    ensures x in Flat(order, f)
  {
    var init, last := order[..|order| - 1], order[|order| - 1];
    if k != last {
      assert k in init;
      InFlat(init, f, k, x);
    }
  }

  lemma InSegment<K>(order: seq<K>, rule: K -> seq<Op>, l: Snapshot, listing: seq<ColumnKey>, k: K, op: Op,
                     s: Statement)
    requires k in order && op in rule(k) && s in StatementsOf(op, l, listing)
    ensures s in Segment(order, rule, l, listing)
  {
    InFlat(order, rule, k, op);
    InFlat(Flat(order, rule), StatementRule(l, listing), op, s);
  }

  /** When the first statements have succeeded, a column has a modifier only if it was left alone. */
  lemma ModifiersDropped(l: Snapshot, r: Snapshot, listing: seq<ColumnKey>, v: Visit, k: ColumnKey)
    requires ListsColumns(listing, l) && Complete(v, l, r) && !Modified(l, r, k)
    ensures match ExecuteAll(r, FirstScript(l, r, listing, v))
            case None => true
            case Some(db) => k in db.columns ==> db.columns[k].modifier == ""
  {
    var script := FirstScript(l, r, listing, v);
    forall s | s in script ensures First(l, r, listing, s) { FirstStatements(l, r, listing, v, s); }
    FirstLeavesUndone(l, r, listing, script);
    if Retyped(l, r, k) {
      var op, s := ChangedColumn(k, l.columns[k], r.columns[k]), AlterType(k, l.columns[k].udt, l.columns[k].length);
      InSegment(v.columns, ColumnRule(l, r), l, listing, k, op, s);
      AlteredLosesModifier(l, r, listing, script, s);
    }
  }

  // ----- An index or trigger that is not ready ends the script

  /** A statement on indexes or triggers. */
  ghost predicate Side(l: Snapshot, s: Statement) {
    || s.DropIndexIfExists? || (s.CreateIndex? && s.index in l.indexes && s.def == l.indexes[s.index])
    || s.DropTriggerIfExists? || s.CreateTrigger?
  }

  lemma IndexStatements(l: Snapshot, r: Snapshot, listing: seq<ColumnKey>, v: Visit, s: Statement)
    requires s in IndexScript(l, r, listing, v)
    ensures Side(l, s) && !s.CreateTrigger? && !s.DropTriggerIfExists?
  {
    var k, op := SegmentSource(v.indexes, IndexRule(l, r), l, listing, s);
    assert op in IndexOps(l, r, k);
  }

  lemma TriggerStatements(l: Snapshot, r: Snapshot, listing: seq<ColumnKey>, v: Visit, s: Statement)
    requires s in Segment(v.triggers, TriggerRule(l, r), l, listing)
    ensures Side(l, s) && Late(l, r, s)
  {
    var k, op := SegmentSource(v.triggers, TriggerRule(l, r), l, listing, s);
    assert op in TriggerOps(l, r, k);
  }

  /** An index that cannot be made, one that must go and cannot, or a trigger that lacks
      something. */
  ghost predicate Stuck(db: Snapshot, s: Statement) {
    || (s.CreateIndex? && !CanBeMade(db, s.def))
    || (s.DropIndexIfExists? && s.index in db.indexes && db.indexes[s.index].backs)
    || (s.CreateTrigger? && !HostExists(db.tables, db.objects, s.trigger.table, s.body.host))
    || (s.CreateTrigger? && !Available(db.objects, Offers(db.routines), s.body.uses))
  }

  lemma StuckStays(l: Snapshot, db: Snapshot, s: Statement, e: Statement)
    requires Stuck(db, s) && Side(l, e)
    ensures Execute(db, s) == None
    ensures Execute(db, e).Some? ==> Stuck(Execute(db, e).value, s)
  {
  }

  lemma {:induction false} StuckFails(l: Snapshot, db: Snapshot, script: seq<Statement>, s: Statement)
    requires Stuck(db, s) && forall e :: e in script ==> Side(l, e)
    ensures ExecuteAll(db, script).Some? ==> Stuck(ExecuteAll(db, script).value, s)
    ensures s in script ==> ExecuteAll(db, script) == None
  {
    if script != [] {
      var init, last := script[..|script| - 1], script[|script| - 1];
      assert last in script;
      StuckFails(l, db, init, s);
      if ExecuteAll(db, init).Some? {
        StuckStays(l, ExecuteAll(db, init).value, s, last);
      }
    }
  }

  /** The operation on an index becomes a statement that drops it, if there is one to be
      replaced, and one that creates it. */
  lemma IndexStatementsOf(l: Snapshot, r: Snapshot, listing: seq<ColumnKey>, v: Visit, n: string)
    requires Complete(v, l, r) && n in l.indexes && IndexOps(l, r, n) != []
    ensures CreateIndex(n, l.indexes[n]) in IndexScript(l, r, listing, v)
    ensures n in r.indexes ==> DropIndexIfExists(n) in IndexScript(l, r, listing, v)
  {
    assert n in v.indexes;
    var op := if n in r.indexes then ChangedIndex(n, l.indexes[n]) else NewIndex(n, l.indexes[n]);
    assert op in IndexRule(l, r)(n);
    InSegment(v.indexes, IndexRule(l, r), l, listing, n, op, CreateIndex(n, l.indexes[n]));
    if n in r.indexes {
      InSegment(v.indexes, IndexRule(l, r), l, listing, n, op, DropIndexIfExists(n));
    }
  }

  lemma FirstKeepsIndexes(l: Snapshot, r: Snapshot, listing: seq<ColumnKey>, v: Visit)
    requires ListsColumns(listing, l)
    ensures match ExecuteAll(r, FirstScript(l, r, listing, v))
            case None => true
            case Some(db) =>
              && db.indexes == r.indexes && db.objects == r.objects && db.routines == r.routines
              && db.tables <= r.tables + l.tables
  {
    var first := FirstScript(l, r, listing, v);
    forall e | e in first ensures First(l, r, listing, e) { FirstStatements(l, r, listing, v, e); }
    FirstLeavesUndone(l, r, listing, first);
  }

  lemma UnreadyIndexIsStuck(l: Snapshot, r: Snapshot, listing: seq<ColumnKey>, v: Visit, n: string)
    returns (s: Statement)
    requires ListsColumns(listing, l) && Complete(v, l, r) && !IndexReady(l, r, n)
    ensures s in IndexScript(l, r, listing, v)
    ensures match ExecuteAll(r, FirstScript(l, r, listing, v))
            case None => true
            case Some(db) => Stuck(db, s)
  {
    FirstKeepsIndexes(l, r, listing, v);
    IndexStatementsOf(l, r, listing, v, n);
    var i := l.indexes[n];
    if n in r.indexes && r.indexes[n].backs {
      s := DropIndexIfExists(n);
    } else {
      s := CreateIndex(n, i);
      if Hosted(l, r, i.table, i.host) && Available(r.objects, Offers(r.routines), i.uses) {
        var c :| c in i.modified && !Modified(l, r, ColumnKey(i.table, c));
        ModifiersDropped(l, r, listing, v, ColumnKey(i.table, c));
      }
    }
  }

  lemma UnreadyIndexEndsScript(l: Snapshot, r: Snapshot, listing: seq<ColumnKey>, v: Visit, n: string)
    requires ListsColumns(listing, l) && Complete(v, l, r) && !IndexReady(l, r, n)
    ensures ExecuteAll(r, FirstScript(l, r, listing, v) + IndexScript(l, r, listing, v)) == None
    ensures ExecuteAll(r, Plan(DiffIn(v, l, r), l, listing)) == None
  {
    var first, indexes, late := FirstScript(l, r, listing, v), IndexScript(l, r, listing, v),
                                LateScript(l, r, listing, v);
    var s := UnreadyIndexIsStuck(l, r, listing, v, n);
    forall e | e in indexes ensures Side(l, e) { IndexStatements(l, r, listing, v, e); }
    ExecuteConcat(r, first, indexes);
    if ExecuteAll(r, first).Some? { StuckFails(l, ExecuteAll(r, first).value, indexes, s); }
    PlanInScripts(l, r, listing, v);
    ExecuteConcat(r, first + indexes, late);
  }

  lemma PlanInScripts(l: Snapshot, r: Snapshot, listing: seq<ColumnKey>, v: Visit)
    ensures Plan(DiffIn(v, l, r), l, listing) ==
            FirstScript(l, r, listing, v) + IndexScript(l, r, listing, v) + LateScript(l, r, listing, v)
  {
    PlanInSegments(l, r, listing, v);
    var a, b := FirstScript(l, r, listing, v) + IndexScript(l, r, listing, v), LateScript(l, r, listing, v);
    assert Plan(DiffIn(v, l, r), l, listing) == a + b;
  }

  /** Statements on indexes change nothing else. */
  lemma {:induction false} IndexesAlone(db: Snapshot, script: seq<Statement>)
    requires forall e :: e in script ==> e.DropIndexIfExists? || e.CreateIndex?
    ensures match ExecuteAll(db, script)
            case None => true
            case Some(after) => after == db.(indexes := after.indexes)
  {
    if script != [] {
      IndexesAlone(db, script[..|script| - 1]);
      assert script[|script| - 1] in script;
    }
  }

  /** Late statements touch neither tables nor columns nor indexes, and no trigger whose
      definition was not captured. */
  lemma {:induction false} LateKeeps(l: Snapshot, r: Snapshot, db: Snapshot, script: seq<Statement>)
    requires forall s :: s in script ==> Late(l, r, s)
    ensures match ExecuteAll(db, script)
            case None => true
            case Some(after) =>
              && after.tables == db.tables && after.columns == db.columns && after.indexes == db.indexes
              && forall k :: k in l.triggers && l.triggers[k].definition == "" ==>
                   (k in after.triggers <==> k in db.triggers) &&
                   (k in db.triggers ==> after.triggers[k] == db.triggers[k])
  {
    if script != [] {
      LateKeeps(l, r, db, script[..|script| - 1]);
      assert script[|script| - 1] in script;
    }
  }

  /** When the script succeeds, a table, column, type, nullability or trigger that was not
      ready is missing, and all indexes and all triggers with a definition were ready. */
  lemma UnreadyIsMissing(l: Snapshot, r: Snapshot, listing: seq<ColumnKey>, v: Visit)
    requires ListsColumns(listing, l) && Complete(v, l, r) && Unambiguous(l.routines) && Unambiguous(r.routines)
    ensures match ExecuteAll(r, Plan(DiffIn(v, l, r), l, listing))
            case None => true
            case Some(db) =>
              && (forall t :: t in l.tables && t !in r.tables && !TableReady(l, r, t) ==> t !in db.tables)
              && (forall k :: !AddReady(l, r, k) ==> k !in db.columns)
              && (forall k :: !AlterReady(l, r, k) ==> k in db.columns && db.columns[k].udt == r.columns[k].udt)
              && (forall k :: !NullReady(l, r, k) ==> k in db.columns && !db.columns[k].nullable)
              && (forall n :: IndexReady(l, r, n))
              && (forall k :: k in l.triggers && l.triggers[k].definition != "" ==> TriggerReady(l, r, k))
              && (forall k :: k in l.triggers && l.triggers[k].definition == "" ==>
                    (k in db.triggers <==> k in r.triggers) && (k in r.triggers ==> db.triggers[k] == r.triggers[k]))
  {
    var first, indexes, late := FirstScript(l, r, listing, v), IndexScript(l, r, listing, v),
                                LateScript(l, r, listing, v);
    PlanInScripts(l, r, listing, v);
    forall s | s in first ensures First(l, r, listing, s) { FirstStatements(l, r, listing, v, s); }
    forall s | s in indexes ensures s.DropIndexIfExists? || s.CreateIndex? { IndexStatements(l, r, listing, v, s); }
    forall s | s in late ensures Late(l, r, s) { LateStatements(l, r, listing, v, s); }
    ExecuteConcat(r, first, indexes);
    ExecuteConcat(r, first + indexes, late);
    FirstLeavesUndone(l, r, listing, first);
    if ExecuteAll(r, first + indexes).Some? {
      IndexesAlone(ExecuteAll(r, first).value, indexes);
      LateKeeps(l, r, ExecuteAll(r, first + indexes).value, late);
    }
    forall n | !IndexReady(l, r, n) ensures ExecuteAll(r, first + indexes + late) == None {
      UnreadyIndexEndsScript(l, r, listing, v, n);
    }
    forall k | k in l.triggers && l.triggers[k].definition != "" && !TriggerReady(l, r, k)
      ensures ExecuteAll(r, first + indexes + late) == None
    {
      UnreadyTriggerEndsScript(l, r, listing, v, k);
    }
  }

  // ----- A function that is not ready ends the script

  lemma SegmentAt<K>(order: seq<K>, i: nat, rule: K -> seq<Op>, l: Snapshot, listing: seq<ColumnKey>)
    requires i < |order|
    ensures Segment(order, rule, l, listing) ==
            Segment(order[..i], rule, l, listing) + Plan(rule(order[i]), l, listing) +
            Segment(order[i + 1..], rule, l, listing)
  {
    assert order == order[..i] + [order[i]] + order[i + 1..];
    assert [order[i]][..0] == [] && Flat([order[i]], rule) == Flat([], rule) + rule(order[i]);
    FlatConcat(order[..i], [order[i]], rule);
    FlatConcat(order[..i] + [order[i]], order[i + 1..], rule);
    FlatConcat(Flat(order[..i], rule), rule(order[i]), StatementRule(l, listing));
    FlatConcat(Flat(order[..i], rule) + rule(order[i]), Flat(order[i + 1..], rule), StatementRule(l, listing));
  }

  lemma SegmentGrows<K>(order: seq<K>, i: nat, rule: K -> seq<Op>, l: Snapshot, listing: seq<ColumnKey>)
    requires i < |order|
    ensures Segment(order[..i + 1], rule, l, listing) ==
            Segment(order[..i], rule, l, listing) + Plan(rule(order[i]), l, listing)
  {
    FlatGrows(order, i, rule);
    FlatConcat(Flat(order[..i], rule), rule(order[i]), StatementRule(l, listing));
  }

  lemma OneReplacement(l: Snapshot, r: Snapshot, listing: seq<ColumnKey>, db: Snapshot, done: set<Sig>, f: Sig)
    requires Unambiguous(l.routines) && Unambiguous(r.routines) && done <= l.routines.Keys
    requires f in l.routines && f !in done && db.routines == RoutinesAt(l, r, done)
    ensures match ExecuteAll(db, Plan(RoutineOps(l, r, f), l, listing))
            case None => true
            case Some(after) => after == db.(routines := RoutinesAt(l, r, done + {f}))
  {
    RoutinePlan(l, r, listing, f);
    if RoutineOps(l, r, f) == [] {
      SameRoutines(l, r, done, f);
      assert ExecuteAll(db, []) == Some(db);
    } else {
      OneRoutineMore(l, r, done, f);
      Replacement(db, f, l.routines[f]);
    }
  }

  lemma Replacement(db: Snapshot, f: Sig, body: Routine)
    ensures match ExecuteAll(db, [CreateOrReplaceRoutine(f, body)])
            case None => true
            case Some(after) => after == db.(routines := Others(db.routines, IdentityOf(f))[f := body])
  {
    SingleStatement(db, CreateOrReplaceRoutine(f, body));
  }

  /** As long as the statements on functions succeed, the functions are those of their stage. */
  lemma {:induction false} RoutinesTracked(l: Snapshot, r: Snapshot, listing: seq<ColumnKey>, db: Snapshot,
                                           order: seq<Sig>, n: nat)
    requires Unambiguous(l.routines) && Unambiguous(r.routines) && Enumerates(order, l.routines.Keys) && n <= |order|
    requires db.routines == r.routines
    ensures match ExecuteAll(db, Segment(order[..n], RoutineRule(l, r), l, listing))
            case None => true
            case Some(after) => after == db.(routines := RoutinesAt(l, r, Elements(order[..n])))
  {
    var rule := RoutineRule(l, r);
    if n == 0 {
      assert order[..0] == [] && Flat([], rule) == [] && Segment([], rule, l, listing) == [];
      assert Elements(order[..0]) == {};
      NothingReplaced(l, r);
      assert db.(routines := r.routines) == db;
    } else {
      RoutinesTracked(l, r, listing, db, order, n - 1);
      SegmentGrows(order, n - 1, rule, l, listing);
      var before, step := Segment(order[..n - 1], rule, l, listing), Plan(rule(order[n - 1]), l, listing);
      ExecuteConcat(db, before, step);
      ElementsGrow(order, n - 1);
      if ExecuteAll(db, before).Some? {
        NotYetDone(l, order, n - 1);
        var mid := ExecuteAll(db, before).value;
        OneReplacement(l, r, listing, mid, Elements(order[..n - 1]), order[n - 1]);
        assert ExecuteAll(db, before + step) == ExecuteAll(mid, step);
      }
    }
  }

  lemma NotYetDone(l: Snapshot, order: seq<Sig>, i: nat)
    requires Enumerates(order, l.routines.Keys) && i < |order|
    ensures order[i] in l.routines && order[i] !in Elements(order[..i]) && Elements(order[..i]) <= l.routines.Keys
  {
    assert order[i] in order && forall g :: g in order[..i] ==> g in order;
  }

  lemma UnreadyRoutineFails(l: Snapshot, r: Snapshot, listing: seq<ColumnKey>, v: Visit, db: Snapshot, i: nat)
    requires Unambiguous(l.routines) && Unambiguous(r.routines) && Complete(v, l, r)
    requires i < |v.routines| && !RoutineReady(l, r, v.routines, i)
    requires db.objects == r.objects && db.routines == r.routines
    ensures ExecuteAll(db, Segment(v.routines, RoutineRule(l, r), l, listing)) == None
  {
    var rule, order := RoutineRule(l, r), v.routines;
    var before, op := Segment(order[..i], rule, l, listing), Plan(rule(order[i]), l, listing);
    RoutinesTracked(l, r, listing, db, order, i);
    SegmentAt(order, i, rule, l, listing);
    ExecuteConcat(db, before, op);
    ExecuteConcat(db, before + op, Segment(order[i + 1..], rule, l, listing));
    if ExecuteAll(db, before).Some? {
      UnreadyStatementFails(l, r, listing, ExecuteAll(db, before).value, order, i);
    }
  }

  lemma UnreadyStatementFails(l: Snapshot, r: Snapshot, listing: seq<ColumnKey>, db: Snapshot, order: seq<Sig>, i: nat)
    requires Unambiguous(l.routines) && Unambiguous(r.routines) && Enumerates(order, l.routines.Keys)
    requires i < |order| && !RoutineReady(l, r, order, i)
    requires db.objects == r.objects && db.routines == RoutinesAt(l, r, Elements(order[..i]))
    ensures ExecuteAll(db, Plan(RoutineOps(l, r, order[i]), l, listing)) == None
  {
    var f := order[i];
    NotYetDone(l, order, i);
    RoutinePlan(l, r, listing, f);
    if Replaceable(l, r, f) {
      OneRoutineMore(l, r, Elements(order[..i]), f);
    } else {
      NotReplaceable(l, r, Elements(order[..i]), f);
    }
    CannotReplace(db, f, l.routines[f]);
  }

  lemma CannotReplace(db: Snapshot, f: Sig, body: Routine)
    requires !CanReplace(db, f, body)
    ensures ExecuteAll(db, [CreateOrReplaceRoutine(f, body)]) == None
  {
    SingleStatement(db, CreateOrReplaceRoutine(f, body));
  }

  lemma NotReplaceable(l: Snapshot, r: Snapshot, done: set<Sig>, f: Sig)
    requires Unambiguous(l.routines) && done <= l.routines.Keys && f in l.routines && f !in done
    requires !Replaceable(l, r, f)
    ensures var fs := RoutinesAt(l, r, done);
            exists g :: g in fs && IdentityOf(g) == IdentityOf(f) && !Replaces(g, fs[g], f, l.routines[f])
  {
    var g :| g in r.routines && IdentityOf(g) == IdentityOf(f) && !Replaces(g, r.routines[g], f, l.routines[f]);
    RemoteIsStillThere(l, r, done, f, g);
  }

  lemma RemoteIsStillThere(l: Snapshot, r: Snapshot, done: set<Sig>, f: Sig, g: Sig)
    requires Unambiguous(l.routines) && done <= l.routines.Keys && f in l.routines && f !in done
    requires g in r.routines && IdentityOf(g) == IdentityOf(f)
    ensures g in RoutinesAt(l, r, done) && RoutinesAt(l, r, done)[g] == r.routines[g]
  {
    assert !Displaced(l, done, g);
  }

  /** The database when the statements before those on functions have succeeded. */
  lemma BeforeRoutines(l: Snapshot, r: Snapshot, listing: seq<ColumnKey>, v: Visit)
    requires ListsColumns(listing, l)
    ensures match ExecuteAll(r, FirstScript(l, r, listing, v) + IndexScript(l, r, listing, v))
            case None => true
            case Some(db) =>
              && db.objects == r.objects && db.routines == r.routines && db.triggers == r.triggers
              && db.tables <= r.tables + l.tables
  {
    var first, indexes := FirstScript(l, r, listing, v), IndexScript(l, r, listing, v);
    forall s | s in first ensures First(l, r, listing, s) { FirstStatements(l, r, listing, v, s); }
    forall s | s in indexes ensures s.DropIndexIfExists? || s.CreateIndex? { IndexStatements(l, r, listing, v, s); }
    FirstLeavesUndone(l, r, listing, first);
    ExecuteConcat(r, first, indexes);
    if ExecuteAll(r, first + indexes).Some? { IndexesAlone(ExecuteAll(r, first).value, indexes); }
  }

  /** A function that is not ready ends the script, if nothing before it did. */
  lemma UnreadyRoutineEndsScript(l: Snapshot, r: Snapshot, listing: seq<ColumnKey>, v: Visit, i: nat)
    requires ListsColumns(listing, l) && Complete(v, l, r) && Unambiguous(l.routines) && Unambiguous(r.routines)
    requires i < |v.routines| && !RoutineReady(l, r, v.routines, i)
    ensures ExecuteAll(r, Plan(DiffIn(v, l, r), l, listing)) == None
  {
    var before := FirstScript(l, r, listing, v) + IndexScript(l, r, listing, v);
    var routines, triggers := Segment(v.routines, RoutineRule(l, r), l, listing),
                              Segment(v.triggers, TriggerRule(l, r), l, listing);
    PlanEndsWithTriggers(l, r, listing, v);
    if ExecuteAll(r, before).Some? {
      BeforeRoutines(l, r, listing, v);
      UnreadyRoutineFails(l, r, listing, v, ExecuteAll(r, before).value, i);
    }
    FailsInside(r, before, routines, triggers);
  }

  lemma FailsInside(db: Snapshot, a: seq<Statement>, b: seq<Statement>, c: seq<Statement>)
    requires ExecuteAll(db, a).Some? ==> ExecuteAll(ExecuteAll(db, a).value, b) == None
    ensures ExecuteAll(db, a + b + c) == None
  {
    ExecuteConcat(db, a, b);
    ExecuteConcat(db, a + b, c);
  }

  /** The database when the statements before those on triggers have succeeded. */
  lemma BeforeTriggers(l: Snapshot, r: Snapshot, listing: seq<ColumnKey>, v: Visit)
    requires ListsColumns(listing, l) && Complete(v, l, r) && Unambiguous(l.routines) && Unambiguous(r.routines)
    ensures match ExecuteAll(r, FirstScript(l, r, listing, v) + IndexScript(l, r, listing, v) +
                                Segment(v.routines, RoutineRule(l, r), l, listing))
            case None => true
            case Some(db) =>
              && db.objects == r.objects && db.routines == RoutinesAt(l, r, l.routines.Keys)
              && db.tables <= r.tables + l.tables
  {
    var before := FirstScript(l, r, listing, v) + IndexScript(l, r, listing, v);
    ExecuteConcat(r, before, Segment(v.routines, RoutineRule(l, r), l, listing));
    if ExecuteAll(r, before).Some? {
      BeforeRoutines(l, r, listing, v);
      RoutinesTracked(l, r, listing, ExecuteAll(r, before).value, v.routines, |v.routines|);
      assert v.routines[..|v.routines|] == v.routines && Elements(v.routines) == l.routines.Keys;
    }
  }

  lemma UnreadyTriggerIsStuck(l: Snapshot, r: Snapshot, db: Snapshot, k: TriggerKey)
    requires k in l.triggers && l.triggers[k].definition != "" && !TriggerReady(l, r, k)
    requires db.objects == r.objects && db.routines == RoutinesAt(l, r, l.routines.Keys)
    requires db.tables <= r.tables + l.tables
    ensures Stuck(db, CreateTrigger(k, l.triggers[k]))
  {
  }

  /** A trigger that lacks something ends the script, if nothing before it did. */
  lemma UnreadyTriggerEndsScript(l: Snapshot, r: Snapshot, listing: seq<ColumnKey>, v: Visit, k: TriggerKey)
    requires ListsColumns(listing, l) && Complete(v, l, r) && Unambiguous(l.routines) && Unambiguous(r.routines)
    requires k in l.triggers && l.triggers[k].definition != "" && !TriggerReady(l, r, k)
    ensures ExecuteAll(r, Plan(DiffIn(v, l, r), l, listing)) == None
  {
    var triggers := Segment(v.triggers, TriggerRule(l, r), l, listing);
    var before := FirstScript(l, r, listing, v) + IndexScript(l, r, listing, v) +
                  Segment(v.routines, RoutineRule(l, r), l, listing);
    BeforeTriggers(l, r, listing, v);
    PlanEndsWithTriggers(l, r, listing, v);
    ExecuteConcat(r, before, triggers);
    var s := TriggerStatementOf(l, r, listing, v, k);
    if ExecuteAll(r, before).Some? {
      var db := ExecuteAll(r, before).value;
      UnreadyTriggerIsStuck(l, r, db, k);
      forall e | e in triggers ensures Side(l, e) { TriggerStatements(l, r, listing, v, e); }
      StuckFails(l, db, triggers, s);
    }
  }

  lemma PlanEndsWithTriggers(l: Snapshot, r: Snapshot, listing: seq<ColumnKey>, v: Visit)
    ensures Plan(DiffIn(v, l, r), l, listing) ==
            FirstScript(l, r, listing, v) + IndexScript(l, r, listing, v) +
            Segment(v.routines, RoutineRule(l, r), l, listing) + Segment(v.triggers, TriggerRule(l, r), l, listing)
  {
    PlanInScripts(l, r, listing, v);
  }

  lemma TriggerStatementOf(l: Snapshot, r: Snapshot, listing: seq<ColumnKey>, v: Visit, k: TriggerKey)
    returns (s: Statement)
    requires Complete(v, l, r) && k in l.triggers && l.triggers[k].definition != "" && TriggerOps(l, r, k) != []
    ensures s == CreateTrigger(k, l.triggers[k]) && s in Segment(v.triggers, TriggerRule(l, r), l, listing)
  {
    s := CreateTrigger(k, l.triggers[k]);
    assert k in v.triggers;
    var op := if k in r.triggers then ChangedTrigger(k, l.triggers[k]) else NewTrigger(k, l.triggers[k]);
    assert op in TriggerRule(l, r)(k);
    InSegment(v.triggers, TriggerRule(l, r), l, listing, k, op, s);
  }

  /** The script succeeds and converges exactly when the migration is feasible.  Then a
      second diff yields no statement, and what only the remote had is kept, exactly unless
      a function of the same identity comes under another key. */
  lemma ConvergesIffMigratable(l: Snapshot, r: Snapshot, listing: seq<ColumnKey>, v: Visit)
    requires Unambiguous(l.routines) && Unambiguous(r.routines) && ListsColumns(listing, l) && Complete(v, l, r)
    ensures var result := ExecuteAll(r, Plan(DiffIn(v, l, r), l, listing));
            && (result.Some? && Converged(l, result.value) <==> Migratable(l, r, v.routines))
            && (Migratable(l, r, v.routines) ==>
                  && KeepsOthers(l, r, result.value)
                  && (KeepsRemote(l, r, result.value) <==> NoneDisplaced(l, r))
                  && forall w :: Complete(w, l, result.value) ==> Plan(DiffIn(w, l, result.value), l, listing) == [])
  {
    if Migratable(l, r, v.routines) {
      ScriptReaches(l, r, listing, v);
      LastStageConverged(l, r);
      LastStageKeeps(l, r);
      var db := Stage(l, r, Everything(l, r));
      forall w | Complete(w, l, db) ensures Plan(DiffIn(w, l, db), l, listing) == [] {
        NothingLeftToDo(l, db, listing, w);
      }
    } else {
      UnmigratableFails(l, r, listing, v);
    }
  }

  lemma UnmigratableFails(l: Snapshot, r: Snapshot, listing: seq<ColumnKey>, v: Visit)
    requires Unambiguous(l.routines) && Unambiguous(r.routines) && ListsColumns(listing, l) && Complete(v, l, r)
    requires !Migratable(l, r, v.routines)
    ensures var result := ExecuteAll(r, Plan(DiffIn(v, l, r), l, listing));
            result.Some? ==> !Converged(l, result.value)
  {
    if i :| 0 <= i < |v.routines| && !RoutineReady(l, r, v.routines, i) {
      UnreadyRoutineEndsScript(l, r, listing, v, i);
    } else if ExecuteAll(r, Plan(DiffIn(v, l, r), l, listing)).Some? {
      UnreadyIsMissing(l, r, listing, v);
      MissingIsNotConverged(l, r, v, ExecuteAll(r, Plan(DiffIn(v, l, r), l, listing)).value);
    }
  }

  /** What is missing after a script that succeeds keeps the schemas apart. */
  lemma MissingIsNotConverged(l: Snapshot, r: Snapshot, v: Visit, db: Snapshot)
    requires !Migratable(l, r, v.routines) && forall i :: 0 <= i < |v.routines| ==> RoutineReady(l, r, v.routines, i)
    requires forall t :: t in l.tables && t !in r.tables && !TableReady(l, r, t) ==> t !in db.tables
    requires forall k :: !AddReady(l, r, k) ==> k !in db.columns
    requires forall k :: !AlterReady(l, r, k) ==> k in db.columns && db.columns[k].udt == r.columns[k].udt
    requires forall k :: !NullReady(l, r, k) ==> k in db.columns && !db.columns[k].nullable
    requires forall n :: IndexReady(l, r, n)
    requires forall k :: k in l.triggers && l.triggers[k].definition != "" ==> TriggerReady(l, r, k)
    requires forall k :: k in l.triggers && l.triggers[k].definition == "" ==>
               (k in db.triggers <==> k in r.triggers) && (k in r.triggers ==> db.triggers[k] == r.triggers[k])
    ensures !Converged(l, db)
  {
    if k :| !AlterReady(l, r, k) {
      assert Retyped(l, r, k);
    } else if k :| !TriggerReady(l, r, k) {
      assert TriggerOps(l, r, k) != [];
    }
  }

  /** Nothing of the column's type gets lost. */
  ghost predicate KeepsWholeType(l: Snapshot, r: Snapshot, k: ColumnKey)
    requires k in l.columns
  {
    if k.table in r.tables && k in r.columns && r.columns[k].udt == l.columns[k].udt then
      r.columns[k].length == l.columns[k].length && r.columns[k].modifier == l.columns[k].modifier
    else l.columns[k].modifier == ""
  }

  lemma LastTypes(l: Snapshot, r: Snapshot, columns: map<ColumnKey, Column>, k: ColumnKey)
    requires k.table !in r.tables ==> TableReady(l, r, k.table)
    requires columns == ColumnsAt(l, r, Everything(l, r).tables, Everything(l, r).columns)
    requires k in l.columns && k.table in l.tables
    ensures k in columns
    ensures columns[k].length == l.columns[k].length && columns[k].modifier == l.columns[k].modifier <==>
            KeepsWholeType(l, r, k)
  {
    if k.table !in r.tables { assert k in r.columns ==> RelationExists(r, k.table); }
  }

  /** The whole type of a column, length and modifier included, is the local one only where
      nothing of it gets lost: a new or retyped column has no modifier, and a column of the
      same type keeps the remote length and modifier, which the diff does not compare. */
  lemma WholeTypeIff(l: Snapshot, r: Snapshot, listing: seq<ColumnKey>, v: Visit, k: ColumnKey)
    requires Unambiguous(l.routines) && Unambiguous(r.routines) && ListsColumns(listing, l) && Complete(v, l, r)
    requires Migratable(l, r, v.routines) && k in l.columns && k.table in l.tables
    ensures ExecuteAll(r, Plan(DiffIn(v, l, r), l, listing)).Some?
    ensures var columns := ExecuteAll(r, Plan(DiffIn(v, l, r), l, listing)).value.columns;
            && k in columns
            && (columns[k].length == l.columns[k].length && columns[k].modifier == l.columns[k].modifier <==>
                KeepsWholeType(l, r, k))
  {
    ScriptReaches(l, r, listing, v);
    LastTypes(l, r, Stage(l, r, Everything(l, r)).columns, k);
  }

  /** A table that is not ready and has no namesake ends the script where it is created. */
  lemma UnreadyTableFails(l: Snapshot, r: Snapshot, listing: seq<ColumnKey>, t: string)
    requires ListsColumns(listing, l) && t in l.tables && t !in r.tables
    requires !TableReady(l, r, t) && !RelationExists(r, t) && HasColumns(l, t)
    ensures ExecuteAll(r, Segment([t], TableRule(l, r), l, listing)) == None
  {
    SegmentAt([t], 0, TableRule(l, r), l, listing);
    var plan := Plan([NewTable(t)], l, listing);
    assert [t][..0] == [] && [t][1..] == [];
    assert Flat([], TableRule(l, r)) == [] && Flat([], StatementRule(l, listing)) == [];
    assert [] + plan + [] == plan;
    PlanOne(NewTable(t), l, listing);
    NoColumnsNoDefs(l, listing, t);
    DefsReadyIff(l, listing, t, r.objects, Offers(r.routines));
    SingleStatement(r, CreateTableIfNotExists(t, DefsOf(l, listing, t)));
  }

  lemma TablesFailFirst(l: Snapshot, r: Snapshot, listing: seq<ColumnKey>, v: Visit)
    requires ExecuteAll(r, Segment(v.tables, TableRule(l, r), l, listing)) == None
    ensures ExecuteAll(r, Plan(DiffIn(v, l, r), l, listing)) == None
  {
    var a, b := Segment(v.tables, TableRule(l, r), l, listing), Segment(v.columns, ColumnRule(l, r), l, listing);
    var c, d := Segment(v.indexes, IndexRule(l, r), l, listing), Segment(v.routines, RoutineRule(l, r), l, listing);
    var e := Segment(v.triggers, TriggerRule(l, r), l, listing);
    ExecuteConcat(r, a, b);
    ExecuteConcat(r, a + b, c);
    ExecuteConcat(r, a + b + c, d);
    ExecuteConcat(r, a + b + c + d, e);
    PlanInSegments(l, r, listing, v);
  }

  function SequenceOf(k: ColumnKey): string {
    k.table + "_" + k.name + "_seq"
  }

  /** A table with a SERIAL column that only the local schema has: its default needs a
      sequence, which no operation creates, and the whole script fails. */
  lemma SerialTableFails(l: Snapshot, r: Snapshot, listing: seq<ColumnKey>, v: Visit, t: string, k: ColumnKey)
    requires ListsColumns(listing, l) && Complete(v, l, r) && v.tables == [t] && !RelationExists(r, t)
    requires k in l.columns && k.table == t && Object(SequenceOf(k)) in l.columns[k].uses && SequenceOf(k) !in r.objects
    ensures ExecuteAll(r, Plan(DiffIn(v, l, r), l, listing)) == None && !Migratable(l, r, v.routines)
  {
    assert t in v.tables && !ColumnReady(r.objects, Offers(r.routines), l.columns[k]);
    assert !TableReady(l, r, t);
    UnreadyTableFails(l, r, listing, t);
    TablesFailFirst(l, r, listing, v);
  }

  /** Dependency safety: no prefix of the script meets a missing table, column, object or
      function, or a name that is already taken. */
  lemma EveryPrefixSucceeds(l: Snapshot, r: Snapshot, listing: seq<ColumnKey>, v: Visit, n: nat)
    requires Unambiguous(l.routines) && Unambiguous(r.routines) && ListsColumns(listing, l) && Complete(v, l, r)
    requires Migratable(l, r, v.routines)
    requires n <= |Plan(DiffIn(v, l, r), l, listing)|
    ensures ExecuteAll(r, Plan(DiffIn(v, l, r), l, listing)[..n]).Some?
  {
    ScriptReaches(l, r, listing, v);
    PrefixSucceeds(r, Plan(DiffIn(v, l, r), l, listing), n);
  }

  lemma PrefixSucceeds(db: Snapshot, script: seq<Statement>, n: nat)
    requires n <= |script| && ExecuteAll(db, script).Some?
    ensures ExecuteAll(db, script[..n]).Some?
  {
    assert script == script[..n] + script[n..];
    ExecuteConcat(db, script[..n], script[n..]);
  }

  /** An index that needs a type modifier, on a table that only the local schema has, such as
      an HNSW index on a column of type vector(1536): the table is created without the
      modifier, and the script fails. */
  lemma ModifiedColumnFails(l: Snapshot, r: Snapshot, listing: seq<ColumnKey>, v: Visit, n: string, c: string)
    requires Unambiguous(l.routines) && ListsColumns(listing, l) && Complete(v, l, r)
    requires n in l.indexes && n !in r.indexes && c in l.indexes[n].modified
    requires l.indexes[n].table !in r.tables && !RelationExists(r, l.indexes[n].table)
    ensures ExecuteAll(r, Plan(DiffIn(v, l, r), l, listing)) == None && !Migratable(l, r, v.routines)
  {
    var k := ColumnKey(l.indexes[n].table, c);
    assert k in r.columns ==> RelationExists(r, k.table);
    assert !Modified(l, r, k) && IndexOps(l, r, n) == [NewIndex(n, l.indexes[n])];
    UnreadyIndexEndsScript(l, r, listing, v, n);
  }

  /** A function whose parameter has another name in the remote: the diff sees two functions,
      the database one, whose parameters cannot be renamed, and the script fails. */
  lemma RenamedParameterFails(l: Snapshot, r: Snapshot, listing: seq<ColumnKey>, v: Visit, f: Sig, g: Sig, p: nat)
    requires ListsColumns(listing, l) && Complete(v, l, r) && Unambiguous(l.routines) && Unambiguous(r.routines)
    requires f in l.routines && g in r.routines && IdentityOf(f) == IdentityOf(g)
    requires var was, now := Inputs(g.params), Inputs(f.params);
             p < |was| && p < |now| && was[p].name != "" && now[p].name != was[p].name
    ensures ExecuteAll(r, Plan(DiffIn(v, l, r), l, listing)) == None && !Migratable(l, r, v.routines)
  {
    assert f in v.routines;
    var i :| 0 <= i < |v.routines| && v.routines[i] == f;
    assert f !in r.routines && !Replaces(g, r.routines[g], f, l.routines[f]);
    assert !Replaceable(l, r, f) && RoutineOps(l, r, f) != [];
    assert !RoutineReady(l, r, v.routines, i);
    UnreadyRoutineEndsScript(l, r, listing, v, i);
  }

  /** A remote function without names for its parameters is overwritten by the local one that
      has names, although only the remote has its key. */
  lemma UnnamedParameterIsOverwritten(l: Snapshot, r: Snapshot, listing: seq<ColumnKey>, v: Visit, f: Sig, g: Sig)
    requires Unambiguous(l.routines) && Unambiguous(r.routines) && ListsColumns(listing, l) && Complete(v, l, r)
    requires Migratable(l, r, v.routines) && f in l.routines && g in r.routines && f != g &&
             IdentityOf(f) == IdentityOf(g)
    ensures ExecuteAll(r, Plan(DiffIn(v, l, r), l, listing)).Some?
    ensures var db := ExecuteAll(r, Plan(DiffIn(v, l, r), l, listing)).value;
            g !in l.routines && g !in db.routines && f in db.routines && db.routines[f] == l.routines[f]
  {
    ScriptReaches(l, r, listing, v);
    assert Displaced(l, l.routines.Keys, g);
    assert RoutineOps(l, r, f) != [];
  }

  /** An index that relies on something which only the local version of a function offers,
      such as being immutable, or on a function that only the local schema has: functions
      come after indexes, and the script fails. */
  lemma LaterFunctionFails(l: Snapshot, r: Snapshot, listing: seq<ColumnKey>, v: Visit, n: string, o: Offer)
    requires ListsColumns(listing, l) && Complete(v, l, r) && n in l.indexes && IndexOps(l, r, n) != []
    requires Calls(o) in l.indexes[n].uses && o !in Offers(r.routines)
    ensures ExecuteAll(r, Plan(DiffIn(v, l, r), l, listing)) == None && !Migratable(l, r, v.routines)
  {
    assert !Available(r.objects, Offers(r.routines), l.indexes[n].uses);
    UnreadyIndexEndsScript(l, r, listing, v, n);
  }
}
