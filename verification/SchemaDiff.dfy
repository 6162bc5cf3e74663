/** Comparing two schema snapshots and migrating the remote one. */
module SchemaDiff {
  import opened Options
  import opened Schema

  datatype Op =
    | NewTable(table: string)
    | NewColumn(key: ColumnKey, column: Column)
    | ChangedColumn(key: ColumnKey, local: Column, remote: Column)
    | NewIndex(index: string, def: Index)
    | ChangedIndex(index: string, def: Index)
    | NewRoutine(sig: Sig, routine: Routine)
    | ChangedRoutine(sig: Sig, routine: Routine)
    | NewTrigger(trigger: TriggerKey, body: Trigger)
    | ChangedTrigger(trigger: TriggerKey, body: Trigger)

  // ----- What the diff says about one name

  function TableOps(l: Snapshot, r: Snapshot, t: string): seq<Op> {
    if t in l.tables && t !in r.tables then [NewTable(t)] else []
  }

  predicate ColumnDiffers(lc: Column, rc: Column) {
    lc.udt != rc.udt || lc.nullable != rc.nullable || lc.default != rc.default
  }

  function ColumnOps(l: Snapshot, r: Snapshot, k: ColumnKey): seq<Op> {
    if k.table !in l.tables || k.table !in r.tables || k !in l.columns then []
    else if k !in r.columns then [NewColumn(k, l.columns[k])]
    else if ColumnDiffers(l.columns[k], r.columns[k]) then [ChangedColumn(k, l.columns[k], r.columns[k])]
    else []
  }

  function IndexOps(l: Snapshot, r: Snapshot, n: string): seq<Op> {
    if n !in l.indexes then []
    else if n !in r.indexes then [NewIndex(n, l.indexes[n])]
    else if l.indexes[n].definition != r.indexes[n].definition then [ChangedIndex(n, l.indexes[n])]
    else []
  }

  function RoutineOps(l: Snapshot, r: Snapshot, sig: Sig): seq<Op> {
    if sig !in l.routines then []
    else if sig !in r.routines then [NewRoutine(sig, l.routines[sig])]
    else if l.routines[sig].hash != r.routines[sig].hash then [ChangedRoutine(sig, l.routines[sig])]
    else []
  }

  function TriggerOps(l: Snapshot, r: Snapshot, k: TriggerKey): seq<Op> {
    if k !in l.triggers then []
    else if k !in r.triggers then [NewTrigger(k, l.triggers[k])]
    else if l.triggers[k].action != r.triggers[k].action then [ChangedTrigger(k, l.triggers[k])]
    else []
  }

  // ----- The whole diff, for any order of visiting the names of one kind

  function Flat<K, T>(order: seq<K>, f: K -> seq<T>): seq<T> {
    if order == [] then []
    else Flat(order[..|order| - 1], f) + f(order[|order| - 1])
  }

  datatype Visit = Visit(
    tables: seq<string>,
    columns: seq<ColumnKey>,
    indexes: seq<string>,
    routines: seq<Sig>,
    triggers: seq<TriggerKey>)

  ghost predicate Enumerates<K(!new)>(order: seq<K>, keys: set<K>) {
    && (forall i, j :: 0 <= i < j < |order| ==> order[i] != order[j])
    && (forall k :: k in order <==> k in keys)
  }

  ghost predicate Complete(v: Visit, l: Snapshot, r: Snapshot) {
    && Enumerates(v.tables, l.tables - r.tables)
    && Enumerates(v.columns, l.columns.Keys + r.columns.Keys)
    && Enumerates(v.indexes, l.indexes.Keys)
    && Enumerates(v.routines, l.routines.Keys)
    && Enumerates(v.triggers, l.triggers.Keys)
  }

  function TableRule(l: Snapshot, r: Snapshot): string -> seq<Op> { t => TableOps(l, r, t) }

  function ColumnRule(l: Snapshot, r: Snapshot): ColumnKey -> seq<Op> { k => ColumnOps(l, r, k) }

  function IndexRule(l: Snapshot, r: Snapshot): string -> seq<Op> { n => IndexOps(l, r, n) }

  function RoutineRule(l: Snapshot, r: Snapshot): Sig -> seq<Op> { sig => RoutineOps(l, r, sig) }

  function TriggerRule(l: Snapshot, r: Snapshot): TriggerKey -> seq<Op> { k => TriggerOps(l, r, k) }

  function DiffIn(v: Visit, l: Snapshot, r: Snapshot): seq<Op> {
    Flat(v.tables, TableRule(l, r)) + Flat(v.columns, ColumnRule(l, r)) + Flat(v.indexes, IndexRule(l, r)) +
    Flat(v.routines, RoutineRule(l, r)) + Flat(v.triggers, TriggerRule(l, r))
  }

  // ----- The statements an operation becomes

  /** The columns of table `t` in the order of the catalog's listing. */
  function DefsOf(l: Snapshot, listing: seq<ColumnKey>, t: string): seq<ColumnDef> {
    if listing == [] then []
    else
      var init, last := DefsOf(l, listing[..|listing| - 1], t), listing[|listing| - 1];
      if last.table == t && last in l.columns then init + [ColumnDef(last.name, AsPrinted(l.columns[last]))] else init
  }

  function StatementsOf(op: Op, l: Snapshot, listing: seq<ColumnKey>): seq<Statement> {
    match op
    case NewTable(t) =>
      var defs := DefsOf(l, listing, t);
      if defs == [] then [] else [CreateTableIfNotExists(t, defs)]
    case NewColumn(k, c) =>
      [AddColumnIfNotExists(k, AsPrinted(c))]
    case ChangedColumn(k, lc, rc) =>
      (if lc.udt != rc.udt then [AlterType(k, lc.udt, lc.length)] else []) +
      (if lc.nullable == rc.nullable then [] else if lc.nullable then [DropNotNull(k)] else [SetNotNull(k)])
    case NewIndex(n, i) =>
      [CreateIndex(n, i)]
    case ChangedIndex(n, i) =>
      [DropIndexIfExists(n), CreateIndex(n, i)]
    case NewRoutine(sig, f) =>
      [CreateOrReplaceRoutine(sig, f)]
    case ChangedRoutine(sig, f) =>
      [CreateOrReplaceRoutine(sig, f)]
    case NewTrigger(k, g) =>
      if g.definition == "" then [] else [CreateTrigger(k, g)]
    case ChangedTrigger(k, g) =>
      if g.definition == "" then [] else [DropTriggerIfExists(k), CreateTrigger(k, g)]
  }

  function StatementRule(l: Snapshot, listing: seq<ColumnKey>): Op -> seq<Statement> {
    op => StatementsOf(op, l, listing)
  }

  function Plan(ops: seq<Op>, l: Snapshot, listing: seq<ColumnKey>): seq<Statement> {
    Flat(ops, StatementRule(l, listing))
  }

  // ----- The loops that compute the diff

  /** Stands for `sorted`: which order it picks does not matter below. */
  method InSomeOrder<K(!new)>(keys: set<K>) returns (order: seq<K>)
    ensures Enumerates(order, keys)
  {
    order := [];
    var rest := keys;
    while rest != {}
      invariant rest <= keys && Enumerates(order, keys - rest)
      decreases |rest|
    {
      var k :| k in rest;
      order, rest := order + [k], rest - {k};
    }
  }

  lemma {:induction false} FlatConcat<K, T>(a: seq<K>, b: seq<K>, f: K -> seq<T>)
    ensures Flat(a + b, f) == Flat(a, f) + Flat(b, f)
  {
    if b == [] {
      assert a + b == a;
    } else {
      assert (a + b)[..|a + b| - 1] == a + b[..|b| - 1];
      FlatConcat(a, b[..|b| - 1], f);
    }
  }

  function Then<K, S, T>(g: K -> seq<S>, h: S -> seq<T>): K -> seq<T> { k => Flat(g(k), h) }

  lemma {:induction false} FlatFlat<K, S, T>(order: seq<K>, g: K -> seq<S>, h: S -> seq<T>)
    ensures Flat(Flat(order, g), h) == Flat(order, Then(g, h))
  {
    if order != [] {
      var init, last := order[..|order| - 1], order[|order| - 1];
      FlatFlat(init, g, h);
      FlatConcat(Flat(init, g), g(last), h);
    }
  }

  lemma FlatGrows<K, T>(order: seq<K>, i: nat, f: K -> seq<T>)
    requires i < |order|
    ensures Flat(order[..i + 1], f) == Flat(order[..i], f) + f(order[i])
  {
    assert order[..i + 1][..i] == order[..i];
  }

  method DiffTables(l: Snapshot, r: Snapshot) returns (ops: seq<Op>, ghost order: seq<string>)
    ensures Enumerates(order, l.tables - r.tables) && ops == Flat(order, TableRule(l, r))
  {
    var names := InSomeOrder(l.tables - r.tables);
    ops := [];
    for i := 0 to |names|
      invariant ops == Flat(names[..i], TableRule(l, r))
    {
      FlatGrows(names, i, TableRule(l, r));
      assert names[i] in names;
      ops := ops + [NewTable(names[i])];
    }
    assert names[..|names|] == names;
    order := names;
  }

  method DiffColumns(l: Snapshot, r: Snapshot) returns (ops: seq<Op>, ghost order: seq<ColumnKey>)
    ensures Enumerates(order, l.columns.Keys + r.columns.Keys) && ops == Flat(order, ColumnRule(l, r))
  {
    var common := l.tables * r.tables;
    var keys := InSomeOrder(l.columns.Keys + r.columns.Keys);
    ops := [];
    for i := 0 to |keys|
      invariant ops == Flat(keys[..i], ColumnRule(l, r))
    {
      FlatGrows(keys, i, ColumnRule(l, r));
      var k := keys[i];
      assert k in keys;
      if k.table !in common { continue; }
      if k in l.columns && k !in r.columns {
        ops := ops + [NewColumn(k, l.columns[k])];
      } else if k in r.columns && k !in l.columns {
        continue;
      } else if ColumnDiffers(l.columns[k], r.columns[k]) {
        ops := ops + [ChangedColumn(k, l.columns[k], r.columns[k])];
      }
    }
    assert keys[..|keys|] == keys;
    order := keys;
  }

  lemma EnumeratesBoth<K(!new)>(a: seq<K>, b: seq<K>, keys: set<K>, others: set<K>)
    requires Enumerates(a, keys - others) && Enumerates(b, keys * others)
    ensures Enumerates(a + b, keys)
  {
    forall i, j | 0 <= i < j < |a + b| ensures (a + b)[i] != (a + b)[j] {
      if i < |a| <= j {
        assert a[i] in a && b[j - |a|] in b;
      }
    }
    forall k ensures k in a + b <==> k in keys {
      assert k in a + b <==> k in a || k in b;
    }
  }

  /** The shape that indexes, functions and triggers share: first the names only the
      local snapshot has, then the common names whose entries are not the same. */
  method DiffEntries<K(!new), V>(lm: map<K, V>, rm: map<K, V>, same: (V, V) -> bool,
                                 added: (K, V) -> Op, changed: (K, V) -> Op, ghost rule: K -> seq<Op>)
    returns (ops: seq<Op>, ghost order: seq<K>)
    requires forall k :: k in lm && k !in rm ==> rule(k) == [added(k, lm[k])]
    requires forall k :: k in lm && k in rm ==>
               rule(k) == (if same(lm[k], rm[k]) then [] else [changed(k, lm[k])])
    ensures Enumerates(order, lm.Keys) && ops == Flat(order, rule)
  {
    var onlyLocal := InSomeOrder(lm.Keys - rm.Keys);
    var common := InSomeOrder(lm.Keys * rm.Keys);
    ops := [];
    for i := 0 to |onlyLocal|
      invariant ops == Flat(onlyLocal[..i], rule)
    {
      FlatGrows(onlyLocal, i, rule);
      assert onlyLocal[i] in onlyLocal;
      ops := ops + [added(onlyLocal[i], lm[onlyLocal[i]])];
    }
    assert onlyLocal[..|onlyLocal|] == onlyLocal;
    for i := 0 to |common|
      invariant ops == Flat(onlyLocal, rule) + Flat(common[..i], rule)
    {
      FlatGrows(common, i, rule);
      assert common[i] in common;
      if !same(lm[common[i]], rm[common[i]]) {
        ops := ops + [changed(common[i], lm[common[i]])];
      }
    }
    assert common[..|common|] == common;
    FlatConcat(onlyLocal, common, rule);
    EnumeratesBoth(onlyLocal, common, lm.Keys, rm.Keys);
    order := onlyLocal + common;
  }

  /** `_diff_snapshots`, without the display lines and the row counts. */
  method DiffSnapshots(l: Snapshot, r: Snapshot) returns (ops: seq<Op>)
    ensures exists v :: Complete(v, l, r) && ops == DiffIn(v, l, r)
  {
    var tableOps, tables := DiffTables(l, r);
    var columnOps, columns := DiffColumns(l, r);
    var indexOps, indexes := DiffEntries(l.indexes, r.indexes,
      (a: Index, b: Index) => a.definition == b.definition,
      (n, i) => NewIndex(n, i), (n, i) => ChangedIndex(n, i), IndexRule(l, r));
    var routineOps, routines := DiffEntries(l.routines, r.routines,
      (a: Routine, b: Routine) => a.hash == b.hash,
      (sig, f) => NewRoutine(sig, f), (sig, f) => ChangedRoutine(sig, f), RoutineRule(l, r));
    var triggerOps, triggers := DiffEntries(l.triggers, r.triggers,
      (a: Trigger, b: Trigger) => a.action == b.action,
      (k, g) => NewTrigger(k, g), (k, g) => ChangedTrigger(k, g), TriggerRule(l, r));
    ops := tableOps + columnOps + indexOps + routineOps + triggerOps;
    ghost var v := Visit(tables, columns, indexes, routines, triggers);
    assert Complete(v, l, r) && ops == DiffIn(v, l, r);
  }
}
