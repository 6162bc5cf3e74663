/** The statement behind a repository's bulk upsert, and when it does what upserting
    the entities one by one would do. */
module UpsertSql {
  import opened Options

  /** A row's columns; a column that is not there is NULL. */
  type Row = map<string, string>
  type Table = map<string, Row>

  /** One dumped entity: its non-null columns, and those among metadata, graph_edges and
      tags that the caller did not set and that are empty. */
  datatype Entity = Entity(id: string, data: Row, unset: set<string>)

  function ColumnsOf(batch: seq<Entity>): set<string> {
    set e, c | e in batch && c in e.data.Keys :: c
  }

  function UnsetOf(batch: seq<Entity>): set<string> {
    set e, c | e in batch && c in e.unset :: c
  }

  /** `ON CONFLICT DO UPDATE`: a listed column takes the new value, or for an unset empty
      column the old one, unless that is NULL. */
  function Updated(stored: Row, data: Row, columns: set<string>, unset: set<string>): Row {
    map c | c in stored.Keys + (data.Keys * columns) ::
      if c in columns && c in data && (c !in unset || c !in stored) then data[c] else stored[c]
  }

  /** A new row: listed columns are inserted as they are, NULL included, the others get
      their defaults. */
  function Inserted(data: Row, columns: set<string>, defaults: Row): Row {
    map c | c in (data.Keys * columns) + (defaults.Keys - columns) :: if c in columns then data[c] else defaults[c]
  }

  function Upserted(table: Table, e: Entity, columns: set<string>, unset: set<string>, defaults: Row): Row {
    if e.id in table then Updated(table[e.id], e.data, columns, unset) else Inserted(e.data, columns, defaults)
  }

  predicate DistinctIds(batch: seq<Entity>) {
    forall i, j :: 0 <= i < j < |batch| ==> batch[i].id != batch[j].id
  }

  /** The rows of a batch go in one after the other, under the same column lists. */
  function Apply(table: Table, batch: seq<Entity>, columns: set<string>, unset: set<string>, defaults: Row): Table {
    if batch == [] then table
    else
      var before := Apply(table, batch[..|batch| - 1], columns, unset, defaults);
      var e := batch[|batch| - 1];
      before[e.id := Upserted(before, e, columns, unset, defaults)]
  }

  /** The whole statement; it fails when an id comes twice. */
  function BulkUpsert(table: Table, batch: seq<Entity>, defaults: Row): Option<Table> {
    if DistinctIds(batch) then Some(Apply(table, batch, ColumnsOf(batch), UnsetOf(batch), defaults)) else None
  }

  function UpsertOne(table: Table, e: Entity, defaults: Row): Table {
    Apply(table, [e], ColumnsOf([e]), UnsetOf([e]), defaults)
  }

  function UpsertEach(table: Table, batch: seq<Entity>, defaults: Row): Table {
    if batch == [] then table
    else UpsertOne(UpsertEach(table, batch[..|batch| - 1], defaults), batch[|batch| - 1], defaults)
  }

  // ----- What one row becomes

  lemma One(table: Table, e: Entity, defaults: Row)
    ensures UpsertOne(table, e, defaults) == table[e.id := Upserted(table, e, e.data.Keys, e.unset, defaults)]
  {
    assert ColumnsOf([e]) == e.data.Keys && UnsetOf([e]) == e.unset;
    assert [e][..0] == [];
    assert Apply(table, [], ColumnsOf([e]), UnsetOf([e]), defaults) == table;
  }

  predicate HasId(batch: seq<Entity>, id: string) {
    exists e :: e in batch && e.id == id
  }

  lemma HasIdMore(batch: seq<Entity>, id: string)
    requires batch != [] && DistinctIds(batch)
    ensures var init, last := batch[..|batch| - 1], batch[|batch| - 1];
            && DistinctIds(init) && !HasId(init, last.id)
            && (HasId(batch, id) <==> HasId(init, id) || last.id == id)
            && forall e :: e in batch <==> e in init || e == last
  {
    assert batch == batch[..|batch| - 1] + [batch[|batch| - 1]];
  }

  /** Rows of distinct ids do not meet: each is upserted as if it were alone. */
  lemma {:induction false} ApplyAt(table: Table, batch: seq<Entity>, columns: set<string>, unset: set<string>,
                                   defaults: Row, id: string)
    requires DistinctIds(batch)
    ensures var after := Apply(table, batch, columns, unset, defaults);
            && (id in after <==> id in table || HasId(batch, id))
            && (!HasId(batch, id) && id in table ==> after[id] == table[id])
            && forall e :: e in batch && e.id == id ==> after[id] == Upserted(table, e, columns, unset, defaults)
  {
    if batch != [] {
      var init, last := batch[..|batch| - 1], batch[|batch| - 1];
      HasIdMore(batch, id);
      ApplyAt(table, init, columns, unset, defaults, id);
      ApplyAt(table, init, columns, unset, defaults, last.id);
    }
  }

  lemma {:induction false} EachAt(table: Table, batch: seq<Entity>, defaults: Row, id: string)
    requires DistinctIds(batch)
    ensures var after := UpsertEach(table, batch, defaults);
            && (id in after <==> id in table || HasId(batch, id))
            && (!HasId(batch, id) && id in table ==> after[id] == table[id])
            && forall e :: e in batch && e.id == id ==> after[id] == Upserted(table, e, e.data.Keys, e.unset, defaults)
  {
    if batch != [] {
      var init, last := batch[..|batch| - 1], batch[|batch| - 1];
      HasIdMore(batch, id);
      EachAt(table, init, defaults, id);
      EachAt(table, init, defaults, last.id);
      One(UpsertEach(table, init, defaults), last, defaults);
    }
  }

  // ----- Bulk against single

  /** The values that an entity sets explicitly in a column some other entity of the
      batch left unset make no difference: the stored column is NULL or has them already. */
  ghost predicate NoValueIgnored(table: Table, batch: seq<Entity>) {
    forall e, c ::
      e in batch && c in UnsetOf(batch) && c !in e.unset && c in e.data && e.id in table && c in table[e.id] ==>
      table[e.id][c] == e.data[c]
  }

  predicate AllExist(table: Table, batch: seq<Entity>) {
    forall e :: e in batch ==> e.id in table
  }

  lemma RowsAgree(table: Table, batch: seq<Entity>, e: Entity, defaults: Row)
    requires e in batch && e.id in table
    ensures Upserted(table, e, ColumnsOf(batch), UnsetOf(batch), defaults) ==
            Upserted(table, e, e.data.Keys, e.unset, defaults)
            <==> forall c :: c in UnsetOf(batch) && c !in e.unset && c in e.data && c in table[e.id] ==>
                   table[e.id][c] == e.data[c]
  {
    var stored := table[e.id];
    var bulk := Updated(stored, e.data, ColumnsOf(batch), UnsetOf(batch));
    var single := Updated(stored, e.data, e.data.Keys, e.unset);
    assert e.data.Keys <= ColumnsOf(batch) && e.unset <= UnsetOf(batch);
    assert bulk.Keys == single.Keys == stored.Keys + e.data.Keys;
    forall c | c in stored.Keys + e.data.Keys
      ensures bulk[c] != single[c] <==>
              c in UnsetOf(batch) && c !in e.unset && c in e.data && c in stored && stored[c] != e.data[c]
    {
    }
    if forall c :: c in UnsetOf(batch) && c !in e.unset && c in e.data && c in stored ==> stored[c] == e.data[c] {
      assert bulk == single;
    }
  }

  /** For rows that exist, the bulk statement leaves the same table as single upserts if
      and only if no explicit value is ignored. */
  lemma BulkIsEachIff(table: Table, batch: seq<Entity>, defaults: Row)
    requires DistinctIds(batch) && AllExist(table, batch)
    ensures BulkUpsert(table, batch, defaults) == Some(UpsertEach(table, batch, defaults)) <==>
            NoValueIgnored(table, batch)
  {
    var bulk := Apply(table, batch, ColumnsOf(batch), UnsetOf(batch), defaults);
    var each := UpsertEach(table, batch, defaults);
    forall id ensures id in bulk <==> id in each
              ensures id in bulk && !HasId(batch, id) ==> bulk[id] == each[id]
    {
      ApplyAt(table, batch, ColumnsOf(batch), UnsetOf(batch), defaults, id);
      EachAt(table, batch, defaults, id);
    }
    forall e | e in batch
      ensures e.id in bulk && e.id in each
      ensures bulk[e.id] == each[e.id] <==>
              forall c :: c in UnsetOf(batch) && c !in e.unset && c in e.data && c in table[e.id] ==>
                table[e.id][c] == e.data[c]
    {
      ApplyAt(table, batch, ColumnsOf(batch), UnsetOf(batch), defaults, e.id);
      EachAt(table, batch, defaults, e.id);
      RowsAgree(table, batch, e, defaults);
    }
    if NoValueIgnored(table, batch) {
      forall id | id in bulk ensures bulk[id] == each[id] {
        if HasId(batch, id) {
          var e :| e in batch && e.id == id;
        }
      }
      assert bulk == each;
    }
  }

  /** In particular when the entities agree on what is unset. */
  lemma AgreeingBatchIsEach(table: Table, batch: seq<Entity>, defaults: Row)
    requires DistinctIds(batch) && AllExist(table, batch)
    requires forall e, f :: e in batch && f in batch ==> e.unset == f.unset
    ensures BulkUpsert(table, batch, defaults) == Some(UpsertEach(table, batch, defaults))
  {
    BulkIsEachIff(table, batch, defaults);
  }

  /** Otherwise an explicit value can get lost: row "a" is to have new tags, but row "b"
      comes in the same batch with its tags unset. */
  lemma MixedBatchLosesValue(table: Table, batch: seq<Entity>, defaults: Row)
    requires table == map["a" := map["tags" := "old"], "b" := map["tags" := "old"]]
    requires batch == [Entity("a", map["tags" := "new"], {}), Entity("b", map["tags" := ""], {"tags"})]
    ensures BulkUpsert(table, batch, defaults) != Some(UpsertEach(table, batch, defaults))
  {
    BulkIsEachIff(table, batch, defaults);
    assert batch[0] in batch && batch[1] in batch && "tags" in batch[1].unset;
    assert "tags" in UnsetOf(batch);
    assert table["a"]["tags"] != batch[0].data["tags"];
  }

  /** Single upserts of distinct ids can be done in any order, existing rows or not. */
  lemma AnyOrder(table: Table, batch: seq<Entity>, other: seq<Entity>, defaults: Row)
    requires DistinctIds(batch) && DistinctIds(other) && multiset(batch) == multiset(other)
    ensures UpsertEach(table, batch, defaults) == UpsertEach(table, other, defaults)
  {
    forall e ensures e in batch <==> e in other {
      assert e in multiset(batch) <==> e in multiset(other);
    }
    var a, b := UpsertEach(table, batch, defaults), UpsertEach(table, other, defaults);
    forall id ensures id in a <==> id in b
              ensures id in a ==> a[id] == b[id]
    {
      EachAt(table, batch, defaults, id);
      EachAt(table, other, defaults, id);
      assert HasId(batch, id) <==> HasId(other, id);
    }
  }

  /** No batch makes a stored column NULL. */
  lemma NothingBecomesNull(table: Table, batch: seq<Entity>, defaults: Row, id: string, c: string)
    requires DistinctIds(batch) && id in table && c in table[id]
    ensures BulkUpsert(table, batch, defaults).Some?
    ensures id in BulkUpsert(table, batch, defaults).value && c in BulkUpsert(table, batch, defaults).value[id]
  {
    ApplyAt(table, batch, ColumnsOf(batch), UnsetOf(batch), defaults, id);
  }
}
