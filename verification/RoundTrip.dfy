/** Writing an entity, letting other calls happen, and reading it back. */
module RoundTrip {
  import opened Options
  import opened Crypto
  import opened KeyTable
  import opened Encryption
  import opened EncryptionRuns
  import opened UpsertSql
  import opened FieldCrypto
  import opened Repository

  const EMPTY_DEFAULTS := {"metadata", "graph_edges", "tags"}

  /** The call changes the tenant's configuration. */
  predicate Configures(c: Call, tenant: string) {
    (c.Configure? || c.ConfigureSealed?) && c.tenant == tenant
  }

  /** The tenant has a row of its own, or the system tenant has one. */
  predicate Rooted(s: Setting, rows: Rows, tenant: string) {
    tenant in rows || s.system in rows
  }

  /** As far as the tenant is concerned nothing changed. */
  predicate Unchanged(s: Setting, rows: Rows, after: Rows, tenant: string) {
    AgreeOn(rows, after, tenant) && (tenant in rows || AgreeOn(rows, after, s.system))
  }

  lemma CallLeaves(s: Setting, rows: Rows, c: Call, tenant: string)
    requires Permitted(s.system, c) && !Configures(c, tenant) && Rooted(s, rows, tenant)
    ensures Unchanged(s, rows, Uncached(s, rows, c).1, tenant)
  {
  }

  lemma UnchangedEntry(s: Setting, rows: Rows, after: Rows, tenant: string)
    requires Unchanged(s, rows, after, tenant)
    ensures EntryFor(s.p, s.master, s.system, rows, tenant) == EntryFor(s.p, s.master, s.system, after, tenant)
    ensures ModeOf(rows, tenant) == ModeOf(after, tenant)
  {
    RowsDecide(s.p, s.master, s.system, rows, after, tenant);
  }

  /** What an upsert of one entity leaves in the table. */
  lemma StoredRow(table: Table, q: Entity, defaults: Row)
    ensures BulkUpsert(table, [q], defaults) == Some(UpsertOne(table, q, defaults))
    ensures var stored := UpsertOne(table, q, defaults)[q.id];
            && (forall c :: c in q.data && c !in q.unset ==> c in stored && stored[c] == q.data[c])
            && (forall c :: c in stored ==> c in q.data || c in defaults || (q.id in table && c in table[q.id]))
  {
    One(table, q, defaults);
  }

  /** Decrypting the stored row gives back what the entity had. */
  lemma ReadsBack(p: Primitives, fields: seq<Field>, dek: Bytes, aad: Bytes, e: Entity, row: Row, stored: Row)
    requires Lawful(p) && Encrypts(p, fields, dek, aad, e.data, row)
    requires forall c :: c in row && c !in e.unset && c != LEVEL ==> c in stored && stored[c] == row[c]
    ensures forall c :: c in e.data && c !in e.unset && c != LEVEL ==>
              c in DecryptedRow(p, fields, dek, aad, stored) &&
              DecryptedRow(p, fields, dek, aad, stored)[c] == e.data[c]
  {
    DecryptRowUndoesEncryptRow(p, fields, dek, aad, e.data, row);
    forall c | c in e.data && c !in e.unset && c != LEVEL
      ensures DecryptedRow(p, fields, dek, aad, stored)[c] == e.data[c]
    {
      assert stored[c] == row[c] && DecryptedRow(p, fields, dek, aad, row)[c] == e.data[c];
    }
  }

  /** Let some calls happen. */
  method RunCalls(svc: EncryptionService, calls: seq<Call>, ghost tenant: string)
    requires svc.Coherent()
    requires forall i :: 0 <= i < |calls| ==> Permitted(svc.system, calls[i]) && !Configures(calls[i], tenant)
    modifies svc, svc.kms
    ensures svc.Coherent() && svc.since == old(svc.since)
    ensures Rooted(SettingOf(svc), old(svc.kms.rows), tenant) ==>
              Unchanged(SettingOf(svc), old(svc.kms.rows), svc.kms.rows, tenant)
  {
    ghost var rooted := Rooted(SettingOf(svc), svc.kms.rows, tenant);
    for i := 0 to |calls|
      invariant svc.Coherent() && svc.since == old(svc.since)
      invariant rooted ==> Rooted(SettingOf(svc), svc.kms.rows, tenant)
      invariant rooted ==> Unchanged(SettingOf(svc), old(svc.kms.rows), svc.kms.rows, tenant)
    {
      if rooted { CallLeaves(SettingOf(svc), svc.kms.rows, calls[i], tenant); }
      var _ := Perform(svc, calls[i]);
    }
  }

  lemma KeyMadeKeepsMode(rows: Rows, after: Rows, system: string, tenant: string)
    requires OnlySystemKeyMade(rows, after, system)
    ensures ModeOf(rows, tenant) == ModeOf(after, tenant)
  {
  }

  lemma WrittenBy(s: Setting, fields: seq<Field>, rows: Rows, e: Entity, q: Entity, live: bool, table: Table,
                  defaults: Row)
    requires Prepared(s, fields, rows, e, q, live) && e.unset <= EMPTY_DEFAULTS && TENANT !in Names(fields)
    requires "deleted_at" !in e.data && "deleted_at" !in defaults
    requires e.id in table ==> "deleted_at" !in table[e.id]
    ensures BulkUpsert(table, [q], defaults) == Some(UpsertOne(table, q, defaults))
    ensures e.id in UpsertOne(table, q, defaults)
    ensures Written(s, fields, rows, e, q, live, UpsertOne(table, q, defaults)[e.id])
  {
    StoredRow(table, q, defaults);
    One(table, q, defaults);
    StoredStamp(s, fields, rows, e, q, live, UpsertOne(table, q, defaults)[e.id]);
  }

  /** For a sealed tenant the flag is what the caches before the call foretell. */
  ghost predicate ForeseenFor(repo: Repository, rows: Rows, deks: DekCache, sealeds: KeyCache, before: nat,
                              tenant: string, stamp: Stamp)
  {
    tenant != "" && tenant != repo.svc.system && IsSealed(rows, tenant) ==>
      LiveAsForeseen(Look(deks, tenant), Look(sealeds, tenant), before, stamp.time, repo.svc.ttl, stamp.live)
  }

  lemma MarkHasKey(svc: EncryptionService, tenant: string)
    requires svc.Coherent() && svc.since < 0
    ensures IsSealed(svc.kms.rows, tenant) && tenant in svc.dekCache ==> tenant in svc.sealedCache
  {
    assert tenant in svc.dekCache ==> Lives(svc.dekCache, tenant, svc.since);
    assert tenant in svc.dekCache && IsSealed(svc.kms.rows, tenant) ==> svc.dekCache[tenant].value == SealedMark;
  }

  /** Upsert a single entity: in every run a sealed tenant's row is sealed exactly if the
      cached public key lives at the clock reading of its encryption. */
  method UpsertSingle(repo: Repository, e: Entity, newKey: Bytes, nonce: Bytes, random: string -> Randomness)
    returns (ghost q: Entity, ghost stamp: Stamp)
    requires repo.Valid() && |nonce| == NONCE_LENGTH
    modifies repo`table, repo.svc, repo.svc.kms
    ensures repo.Valid() && OnlySystemKeyMade(old(repo.svc.kms.rows), repo.svc.kms.rows, repo.svc.system)
    ensures repo.PreparedAt(e, q, stamp, old(repo.svc.now), repo.svc.now)
    ensures TenantOf(e.data) != "" ==> repo.Settled(TenantOf(e.data))
    ensures var after := BulkUpsert(old(repo.table), [q], repo.defaults);
            repo.table == if after.Some? then after.value else old(repo.table)
    ensures ForeseenFor(repo, old(repo.svc.kms.rows), old(repo.svc.dekCache), old(repo.svc.sealedCache),
                        old(repo.svc.now), TenantOf(e.data), stamp)
  {
    ghost var t := TenantOf(e.data);
    MarkHasKey(repo.svc, t);
    var _, prepared, stamps := repo.Upsert([e], newKey, nonce, random);
    q, stamp := prepared[0], stamps[0];
    assert prepared == [q] && [e][0] == e;
    assert repo.PreparedAt([e][0], q, stamp, old(repo.svc.now), repo.svc.now);
    assert repo.AfterLoading(old(repo.svc.dekCache), old(repo.svc.sealedCache), old(repo.svc.now),
                             TenantOf([e][0].data), stamps[0].time);
    FlagForeseen(repo, e, stamp, old(repo.svc.kms.rows), old(repo.svc.dekCache), old(repo.svc.sealedCache),
                 old(repo.svc.now));
  }

  /** What loading did to the caches foretells the flag. */
  lemma FlagForeseen(repo: Repository, e: Entity, stamp: Stamp, rows: Rows, deks: DekCache, sealeds: KeyCache,
                     before: nat)
    requires OnlySystemKeyMade(rows, repo.svc.kms.rows, repo.svc.system) && before <= stamp.time
    requires repo.AfterLoading(deks, sealeds, before, TenantOf(e.data), stamp.time) && repo.Timed(e, stamp)
    requires IsSealed(rows, TenantOf(e.data)) && TenantOf(e.data) in deks ==> TenantOf(e.data) in sealeds
    ensures ForeseenFor(repo, rows, deks, sealeds, before, TenantOf(e.data), stamp)
  {
    var t := TenantOf(e.data);
    if t != "" && t != repo.svc.system && IsSealed(rows, t) {
      KeyLives(Look(deks, t), Look(sealeds, t), Look(repo.svc.sealedCache, t), before, stamp.time, repo.svc.ttl);
    }
  }

  /** The row that it leaves. */
  method WriteOne(repo: Repository, e: Entity, newKey: Bytes, nonce: Bytes, random: string -> Randomness)
    returns (ghost q: Entity, ghost stamp: Stamp)
    requires repo.Valid() && |nonce| == NONCE_LENGTH && e.unset <= EMPTY_DEFAULTS
    requires "deleted_at" !in e.data && "deleted_at" !in repo.defaults
    requires e.id in repo.table ==> "deleted_at" !in repo.table[e.id]
    modifies repo`table, repo.svc, repo.svc.kms
    ensures repo.Valid() && repo.table == UpsertOne(old(repo.table), q, repo.defaults) && e.id in repo.table
    ensures Written(repo.This(), repo.fields, repo.svc.kms.rows, e, q, stamp.live, repo.table[e.id])
    ensures TenantOf(e.data) != "" ==> Rooted(repo.This(), repo.svc.kms.rows, TenantOf(e.data))
    ensures ModeOf(repo.svc.kms.rows, TenantOf(e.data)) == ModeOf(old(repo.svc.kms.rows), TenantOf(e.data))
    ensures OnlySystemKeyMade(old(repo.svc.kms.rows), repo.svc.kms.rows, repo.svc.system)
    ensures old(repo.svc.now) <= stamp.time <= repo.svc.now && repo.Timed(e, stamp)
    ensures ForeseenFor(repo, old(repo.svc.kms.rows), old(repo.svc.dekCache), old(repo.svc.sealedCache),
                        old(repo.svc.now), TenantOf(e.data), stamp)
  {
    q, stamp := UpsertSingle(repo, e, newKey, nonce, random);
    KeyMadeKeepsMode(old(repo.svc.kms.rows), repo.svc.kms.rows, repo.svc.system, TenantOf(e.data));
    WrittenBy(repo.This(), repo.fields, repo.svc.kms.rows, e, q, stamp.live, old(repo.table), repo.defaults);
  }

  /** Whether a sealed tenant's row will be sealed, checked on the caches before the call. */
  method WriteSealed(repo: Repository, e: Entity, newKey: Bytes, nonce: Bytes, random: string -> Randomness)
    returns (ghost q: Entity, ghost stamp: Stamp)
    requires repo.Valid() && |nonce| == NONCE_LENGTH && e.unset <= EMPTY_DEFAULTS
    requires "deleted_at" !in e.data && "deleted_at" !in repo.defaults
    requires e.id in repo.table ==> "deleted_at" !in repo.table[e.id]
    requires TenantOf(e.data) != "" && TenantOf(e.data) != repo.svc.system &&
             IsSealed(repo.svc.kms.rows, TenantOf(e.data))
    modifies repo`table, repo.svc, repo.svc.kms
    ensures e.id in repo.table && old(repo.svc.now) <= stamp.time
    ensures StoredAs(repo.This(), repo.fields, repo.svc.kms.rows, e, Some(SealedMark), stamp.live, repo.table[e.id])
    ensures TenantOf(e.data) in repo.svc.sealedCache
    ensures stamp.live <==> repo.svc.sealedCache[TenantOf(e.data)].expiry >= stamp.time
    ensures LiveAsForeseen(Look(old(repo.svc.dekCache), TenantOf(e.data)),
                           Look(old(repo.svc.sealedCache), TenantOf(e.data)),
                           old(repo.svc.now), stamp.time, repo.svc.ttl, stamp.live)
  {
    q, stamp := WriteOne(repo, e, newKey, nonce, random);
    StoredAsResolved(repo.This(), repo.fields, repo.svc.kms.rows, e, q, stamp.live, repo.table[e.id]);
  }

  /** `stored` is the row that writing `e` has left, encrypted under the table `rows`. */
  ghost predicate Written(s: Setting, fields: seq<Field>, rows: Rows, e: Entity, q: Entity, live: bool, stored: Row) {
    && Prepared(s, fields, rows, e, q, live)
    && (forall c :: c in q.data && c !in q.unset ==> c in stored && stored[c] == q.data[c])
    && LEVEL in stored && "deleted_at" !in stored
    && (if TenantOf(e.data) == "" then stored[LEVEL] == "none" else TenantOf(stored) == TenantOf(e.data))
  }

  /** How the fields of an entity are stored when the tenant's resolution is this: encrypted
      under the key, sealed for the owner of the public key, or as they are. */
  ghost predicate StoredAs(s: Setting, fields: seq<Field>, rows: Rows, e: Entity, entry: Option<DekEntry>, live: bool,
                           stored: Row) {
    var t := TenantOf(e.data);
    forall f :: f in fields && f.name in e.data && f.name !in e.unset && f.name != LEVEL ==>
      f.name in stored &&
      match entry
      case Some(KeyEntry(dek)) =>
        exists r: Nonce :: stored[f.name] == FieldValue(s.p, f, dek, Aad(s.p, t, e.id), e.data[f.name], r)
      case Some(SealedMark) =>
        if live then
          t in rows && FitsHeader(s.p, rows[t].blob) &&
          exists x :: stored[f.name] == SealValue(s.p, rows[t].blob, x, Aad(s.p, t, e.id), e.data[f.name])
        else stored[f.name] == e.data[f.name]
      case _ => stored[f.name] == e.data[f.name]
  }

  lemma StoredAsResolved(s: Setting, fields: seq<Field>, rows: Rows, e: Entity, q: Entity, live: bool, stored: Row)
    requires Written(s, fields, rows, e, q, live, stored) && TenantOf(e.data) != ""
    ensures StoredAs(s, fields, rows, e, EntryFor(s.p, s.master, s.system, rows, TenantOf(e.data)), live, stored)
  {
    var row :| PreparedAs(s, fields, rows, e, q, row, live);
    forall f | f in fields && f.name in e.data && f.name !in e.unset && f.name != LEVEL
      ensures f.name in stored && f.name in row && stored[f.name] == row[f.name] && f.name in Names(fields)
    {
      assert q.data[f.name] == row[f.name];
    }
  }

  /** A client row is ciphertext that the tenant's own key opens. */
  lemma ClientOpensStored(s: Setting, fields: seq<Field>, rows: Rows, e: Entity, dek: Bytes, live: bool, stored: Row,
                          f: Field)
    requires Lawful(s.p) && StoredAs(s, fields, rows, e, Some(KeyEntry(dek)), live, stored)
    requires f in fields && f.name in e.data && f.name !in e.unset && f.name != LEVEL
    ensures f.name in stored
    ensures DecryptValue(s.p, dek, Aad(s.p, TenantOf(e.data), e.id), stored[f.name]) == e.data[f.name]
  {
    var aad := Aad(s.p, TenantOf(e.data), e.id);
    var r: Nonce :| stored[f.name] == FieldValue(s.p, f, dek, aad, e.data[f.name], r);
    DecryptUndoesEncrypt(s.p, dek, NonceFor(s.p, f, dek, s.p.utf8(e.data[f.name]), aad, r), aad, e.data[f.name]);
  }

  /** A sealed row is opened by the private key, and by it alone was it meant to be. */
  lemma OwnerOpensStored(s: Setting, fields: seq<Field>, rows: Rows, e: Entity, privateKey: Bytes, stored: Row,
                         f: Field)
    requires Lawful(s.p) && StoredAs(s, fields, rows, e, Some(SealedMark), true, stored)
    requires f in fields && f.name in e.data && f.name !in e.unset && f.name != LEVEL
    requires TenantOf(e.data) in rows ==> rows[TenantOf(e.data)].blob == s.p.publicOf(privateKey)
    ensures f.name in stored
    ensures OpenSealedValue(s.p, privateKey, Aad(s.p, TenantOf(e.data), e.id), stored[f.name]) == e.data[f.name]
  {
    var aad := Aad(s.p, TenantOf(e.data), e.id);
    var x :| stored[f.name] == SealValue(s.p, s.p.publicOf(privateKey), x, aad, e.data[f.name]);
    OpenUndoesSeal(s.p, privateKey, x, aad, e.data[f.name]);
  }

  /** The stamp and the tenant of a written row. */
  lemma StoredStamp(s: Setting, fields: seq<Field>, rows: Rows, e: Entity, q: Entity, live: bool, stored: Row)
    requires Prepared(s, fields, rows, e, q, live) && e.unset <= EMPTY_DEFAULTS && TENANT !in Names(fields)
    requires forall c :: c in q.data && c !in q.unset ==> c in stored && stored[c] == q.data[c]
    ensures LEVEL in stored && q.data.Keys == e.data.Keys + {LEVEL}
    ensures if TenantOf(e.data) == "" then stored[LEVEL] == "none" else TenantOf(stored) == TenantOf(e.data)
  {
    var row :| PreparedAs(s, fields, rows, e, q, row, live);
    assert q.data[LEVEL] == LevelName(if TenantOf(e.data) == "" then None else Some(ModeOf(rows, TenantOf(e.data))));
    if TENANT in e.data {
      assert row[TENANT] == e.data[TENANT];
    }
  }

  /** Reading later, with or without naming the tenant, is reading at the time of writing. */
  lemma SameRead(s: Setting, fields: seq<Field>, rows: Rows, later: Rows, e: Entity, stored: Row, tenant: string)
    requires LEVEL in stored && (tenant == "" || tenant == TenantOf(e.data))
    requires if TenantOf(e.data) == "" then stored[LEVEL] == "none" else TenantOf(stored) == TenantOf(e.data)
    requires TenantOf(e.data) != "" ==>
               EntryFor(s.p, s.master, s.system, rows, TenantOf(e.data)) ==
               EntryFor(s.p, s.master, s.system, later, TenantOf(e.data))
    ensures ReadWith(s, fields, later, e.id, stored, if tenant != "" then tenant else TenantOf(stored)) ==
            ReadWith(s, fields, rows, e.id, stored, TenantOf(e.data))
  {
  }

  /** What was written, read with the resolution of now: the same as then. */
  lemma ReadsWhatWasWritten(s: Setting, fields: seq<Field>, rows: Rows, e: Entity, q: Entity, live: bool, stored: Row,
                            read: Row)
    requires Lawful(s.p) && Written(s, fields, rows, e, q, live, stored) && e.unset <= EMPTY_DEFAULTS &&
             LEVEL !in Names(fields)
    requires read == ReadWith(s, fields, rows, e.id, stored, TenantOf(e.data))
    ensures TenantOf(e.data) == "" || ModeOf(rows, TenantOf(e.data)) == Platform ==>
              forall c :: c in e.data && c !in e.unset && c != LEVEL ==> c in read && read[c] == e.data[c]
    ensures TenantOf(e.data) != "" && ModeOf(rows, TenantOf(e.data)) != Platform ==>
              read == stored &&
              StoredAs(s, fields, rows, e, EntryFor(s.p, s.master, s.system, rows, TenantOf(e.data)), live, read)
  {
    var tenant := TenantOf(e.data);
    var row :| PreparedAs(s, fields, rows, e, q, row, live);
    var mode := if tenant == "" then None else Some(ModeOf(rows, tenant));
    assert stored[LEVEL] == LevelName(mode);
    if tenant != "" { StoredAsResolved(s, fields, rows, e, q, live, stored); }
    if tenant != "" && ModeOf(rows, tenant) == Platform {
      match EntryFor(s.p, s.master, s.system, rows, tenant) {
        case Some(KeyEntry(dek)) =>
          ReadsBack(s.p, fields, dek, Aad(s.p, tenant, e.id), e, row, stored);
        case _ =>
          assert row == e.data;
      }
    }
  }

  /** Read an entity whose tenant resolves as it did when the row was written. */
  method ReadOne(repo: Repository, e: Entity, ghost q: Entity, ghost live: bool, ghost rows: Rows, tenant: string,
                 newKey: Bytes, nonce: Bytes)
    returns (row: Option<Row>)
    requires repo.Valid() && |nonce| == NONCE_LENGTH && (tenant == "" || tenant == TenantOf(e.data))
    requires e.id in repo.table && Written(repo.This(), repo.fields, rows, e, q, live, repo.table[e.id])
    requires TenantOf(e.data) != "" ==>
               Rooted(repo.This(), rows, TenantOf(e.data)) &&
               Unchanged(repo.This(), rows, repo.svc.kms.rows, TenantOf(e.data))
    modifies repo.svc, repo.svc.kms
    ensures row == Some(ReadWith(repo.This(), repo.fields, rows, e.id, repo.table[e.id], TenantOf(e.data)))
  {
    ghost var t, before := TenantOf(e.data), repo.svc.kms.rows;
    row := repo.GetForTenant(e.id, tenant, newKey, nonce);
    if t != "" {
      UnchangedEntry(repo.This(), rows, before, t);
      UnchangedEntry(repo.This(), before, repo.svc.kms.rows, t);
    }
    SameRead(repo.This(), repo.fields, rows, repo.svc.kms.rows, e, repo.table[e.id], tenant);
  }

  lemma NotPlatformEntry(p: Primitives, master: Bytes, system: string, rows: Rows, tenant: string)
    requires TableValid(p, master, rows)
    ensures ModeOf(rows, tenant) == Client ==>
              EntryFor(p, master, system, rows, tenant).Some? &&
              EntryFor(p, master, system, rows, tenant).value.KeyEntry?
    ensures ModeOf(rows, tenant) == Sealed ==> EntryFor(p, master, system, rows, tenant) == Some(SealedMark)
  {
  }

  /** Write, run any calls that do not reconfigure the tenant or the system tenant, and
      read.  In platform mode (own key, system key or disabled) and without a tenant the
      fields come back as they were.  In client and sealed mode the stored row comes back
      untouched: in client mode encrypted under the tenant's own key, in sealed mode sealed
      for the owner of the private key, if the public key lived when it was written. */
  method WriteThenRead(repo: Repository, e: Entity, between: seq<Call>, tenant: string,
                       newKey: Bytes, nonce: Bytes, random: string -> Randomness)
    returns (row: Option<Row>, ghost q: Entity, ghost stamp: Stamp, ghost rows: Rows)
    requires repo.Valid() && |nonce| == NONCE_LENGTH
    requires e.unset <= EMPTY_DEFAULTS && (tenant == "" || tenant == TenantOf(e.data))
    requires "deleted_at" !in e.data && "deleted_at" !in repo.defaults
    requires e.id in repo.table ==> "deleted_at" !in repo.table[e.id]
    requires forall i :: 0 <= i < |between| ==>
               Permitted(repo.svc.system, between[i]) && !Configures(between[i], TenantOf(e.data))
    modifies repo`table, repo.svc, repo.svc.kms
    ensures row != None && e.id in repo.table
    ensures repo.table == UpsertOne(old(repo.table), q, repo.defaults)
    ensures OnlySystemKeyMade(old(repo.svc.kms.rows), rows, repo.svc.system)
    ensures ModeOf(rows, TenantOf(e.data)) == ModeOf(old(repo.svc.kms.rows), TenantOf(e.data))
    ensures Written(repo.This(), repo.fields, rows, e, q, stamp.live, repo.table[e.id])
    ensures TenantOf(e.data) == "" || ModeOf(rows, TenantOf(e.data)) == Platform ==>
              forall c :: c in e.data && c !in e.unset && c != LEVEL ==> c in row.value && row.value[c] == e.data[c]
    ensures TenantOf(e.data) != "" && ModeOf(rows, TenantOf(e.data)) != Platform ==> row.value == repo.table[e.id]
    ensures TenantOf(e.data) != "" && ModeOf(rows, TenantOf(e.data)) == Client ==>
              var entry := EntryFor(repo.svc.kms.p, repo.svc.kms.master, repo.svc.system, rows, TenantOf(e.data));
              && entry.Some? && entry.value.KeyEntry?
              && StoredAs(repo.This(), repo.fields, rows, e, entry, stamp.live, row.value)
    ensures TenantOf(e.data) != "" && ModeOf(rows, TenantOf(e.data)) == Sealed ==>
              StoredAs(repo.This(), repo.fields, rows, e, Some(SealedMark), stamp.live, row.value)
    ensures ForeseenFor(repo, old(repo.svc.kms.rows), old(repo.svc.dekCache), old(repo.svc.sealedCache),
                        old(repo.svc.now), TenantOf(e.data), stamp)
  {
    q, stamp := WriteOne(repo, e, newKey, nonce, random);
    rows := repo.svc.kms.rows;
    ghost var stored := repo.table[e.id];
    NotPlatformEntry(repo.svc.kms.p, repo.svc.kms.master, repo.svc.system, rows, TenantOf(e.data));
    RunCalls(repo.svc, between, TenantOf(e.data));
    row := ReadOne(repo, e, q, stamp.live, rows, tenant, newKey, nonce);
    ReadsWhatWasWritten(repo.This(), repo.fields, rows, e, q, stamp.live, stored, row.value);
  }

  /** The public key is cached a moment before the sealed mark.  In that moment before
      both expire, `get_dek` is satisfied with the mark but encryption finds the key
      expired, and the fields of a sealed tenant are written in the clear. */
  method ExpiredKeyWritesPlain(p: Primitives, fields: seq<Field>, tenant: string, pem: Bytes, ttl: nat,
                               id: string, plain: Row, random: Randomness)
    returns (entry: Option<DekEntry>, row: Row)
    requires Lawful(p) && DistinctNames(fields) && TENANT !in Names(fields) && LEVEL !in Names(fields)
    requires forall k :: FitsHeader(p, k)
    requires ttl > 0 && tenant != "" && tenant != "__system__" && TenantOf(plain) == tenant
    ensures entry == Some(SealedMark) && row == plain
  {
    var svc := AboutToExpire(p, tenant, pem, ttl);
    entry := svc.LookUpDek(tenant);
    assert svc.now == ttl + 1;
    var repo := new Repository(svc, fields, map[], map[]);
    assert repo.Valid() && repo.Entry(tenant) == Some(SealedMark);
    ghost var live;
    row, live := repo.EncryptFields(id, plain, random);
    assert !live;
  }

  /** A sealed tenant whose public key expires two ticks before its mark, one tick later. */
  method AboutToExpire(p: Primitives, tenant: string, pem: Bytes, ttl: nat) returns (svc: EncryptionService)
    requires Lawful(p) && ttl > 0 && tenant != "__system__"
    ensures fresh(svc) && fresh(svc.kms) && svc.Coherent() && svc.since < 0 && svc.kms.p == p &&
            IsSealed(svc.kms.rows, tenant)
    ensures tenant in svc.sealedCache && svc.sealedCache[tenant].expiry == ttl
    ensures tenant in svc.dekCache && svc.dekCache[tenant] == Cached(SealedMark, ttl + 2)
    ensures svc.now == 2 && svc.pauses == [ttl - 1]
  {
    var kms := new LocalFileKMS(p, [], map[]);
    var pauses := [0, 2, 0, ttl - 1];
    svc := new EncryptionService(kms, "__system__", ttl, pauses);
    svc.ConfigureTenantSealed(tenant, pem);
    assert pauses[3..] == [ttl - 1];
  }
}
