/** The encrypting repository: what is written for an entity and what is read back. */
module Repository {
  import opened Options
  import opened Crypto
  import opened KeyTable
  import opened Encryption
  import opened EncryptionRuns
  import opened UpsertSql
  import opened FieldCrypto

  const TENANT := "tenant_id"
  const LEVEL := "encryption_level"

  function LevelName(mode: Option<Mode>): string {
    match mode
    case None => "none"
    case Some(Platform) => "platform"
    case Some(Client) => "client"
    case Some(Sealed) => "sealed"
  }

  /** The tenant of a row; "" stands for none. */
  function TenantOf(row: Row): string {
    if TENANT in row then row[TENANT] else ""
  }

  function Aad(p: Primitives, tenant: string, id: string): Bytes {
    p.utf8(tenant + ":" + id)
  }

  /** What `encrypt_fields` makes of a dump, by the tenant's resolution.  A sealed row is
      written in the clear when the cached public key has expired. */
  ghost predicate Protected(p: Primitives, fields: seq<Field>, entry: Option<DekEntry>, rows: Rows, sealedLive: bool,
                            id: string, plain: Row, row: Row)
  {
    var tenant := TenantOf(plain);
    if tenant == "" then row == plain
    else
      match entry
      case None => row == plain
      case Some(DisabledMark) => row == plain
      case Some(KeyEntry(dek)) => Encrypts(p, fields, dek, Aad(p, tenant, id), plain, row)
      case Some(SealedMark) =>
        if sealedLive then
          && tenant in rows && FitsHeader(p, rows[tenant].blob)
          && Seals(p, fields, rows[tenant].blob, Aad(p, tenant, id), plain, row)
        else row == plain
  }

  /** The row an entity is stored as: encrypted, and stamped with the tenant's mode. */
  ghost predicate Prepared(s: Setting, fields: seq<Field>, rows: Rows, e: Entity, q: Entity, sealedLive: bool) {
    && q.id == e.id && q.unset == e.unset
    && exists row :: PreparedAs(s, fields, rows, e, q, row, sealedLive)
  }

  ghost predicate PreparedAs(s: Setting, fields: seq<Field>, rows: Rows, e: Entity, q: Entity, row: Row,
                             sealedLive: bool) {
    var tenant := TenantOf(e.data);
    && Protected(s.p, fields, EntryFor(s.p, s.master, s.system, rows, tenant), rows, sealedLive, e.id, e.data, row)
    && q.data == row[LEVEL := LevelName(if tenant == "" then None else Some(ModeOf(rows, tenant)))]
  }

  /** What a stamped row reads as under the key that the tenant has in this table. */
  function ReadWith(s: Setting, fields: seq<Field>, rows: Rows, id: string, stored: Row, tenant: string): Row
    requires LEVEL in stored
  {
    if tenant == "" || stored[LEVEL] != "platform" then stored
    else
      match EntryFor(s.p, s.master, s.system, rows, tenant)
      case Some(KeyEntry(dek)) => DecryptedRow(s.p, fields, dek, Aad(s.p, tenant, id), stored)
      case _ => stored
  }

  /** Whether a sealed tenant's cached key was alive when an entity was encrypted, and the
      clock reading of that moment. */
  datatype Stamp = Stamp(live: bool, time: nat)

  /** The randomness of one entity's encryption. */
  datatype Randomness = Randomness(nonces: string -> Nonce, ephemerals: string -> Ephemeral)

  ghost predicate Loaded(system: string, rows: Rows, deks: DekCache, sealeds: KeyCache,
                         sealeds': KeyCache, before: nat, tenant: string, after: nat, ttl: nat)
  {
    tenant != "" && tenant != system && IsSealed(rows, tenant) ==>
      KeyAfter(Look(deks, tenant), Look(sealeds, tenant), Look(sealeds', tenant), before, after, ttl)
  }

  /** Some tenants are loaded, the entries of all others but the system's are as before. */
  ghost predicate LoadingDone(system: string, rows: Rows, deks: DekCache, sealeds: KeyCache,
                              deks': DekCache, sealeds': KeyCache,
                              start: nat, now: nat, ttl: nat, tenants: set<string>)
  {
    && (forall u :: u in tenants ==> Loaded(system, rows, deks, sealeds, sealeds', start, u, now, ttl))
    && (forall u :: u !in tenants + {system} ==>
          Look(deks', u) == Look(deks, u) && Look(sealeds', u) == Look(sealeds, u))
  }

  /** Loading one more tenant after some others. */
  lemma LoadingStep(system: string, rows: Rows, rows': Rows, deks: DekCache, sealeds: KeyCache,
                    deks1: DekCache, sealeds1: KeyCache,
                    deks2: DekCache, sealeds2: KeyCache,
                    start: nat, mid: nat, end: nat, ttl: nat, tenants: set<string>, t: string)
    requires LoadingDone(system, rows, deks, sealeds, deks1, sealeds1, start, mid, ttl, tenants) &&
             start <= mid <= end && t !in tenants
    requires OnlySystemKeyMade(rows, rows', system)
    requires forall u :: u !in {t, system} ==>
               Look(deks2, u) == Look(deks1, u) && Look(sealeds2, u) == Look(sealeds1, u)
    requires Loaded(system, rows', deks1, sealeds1, sealeds2, mid, t, end, ttl)
    ensures LoadingDone(system, rows', deks, sealeds, deks2, sealeds2, start, end, ttl, tenants + {t})
  {
    forall u | u in tenants + {t} ensures Loaded(system, rows', deks, sealeds, sealeds2, start, u, end, ttl) {
      if u != system {
        assert u in tenants ==> Loaded(system, rows, deks, sealeds, sealeds1, start, u, mid, ttl);
      }
    }
  }

  lemma OneLess(tenants: set<string>, rest: set<string>, t: string)
    requires rest <= tenants && t in rest
    ensures tenants - rest + {t} == tenants - (rest - {t}) && |rest - {t}| < |rest|
  {
  }

  class Repository {
    const svc: EncryptionService
    const fields: seq<Field>
    const defaults: Row
    var table: Table

    ghost predicate Valid()
      reads svc`dekCache, svc`modeCache, svc`sealedCache, svc`now, svc`since, svc.kms
    {
      && svc.Coherent() && svc.since < 0 && DistinctNames(fields) && (forall k :: FitsHeader(svc.kms.p, k))
      && TENANT !in Names(fields) && LEVEL !in Names(fields)
    }

    ghost function This(): Setting
    {
      Setting(svc.kms.p, svc.kms.master, svc.system)
    }

    ghost function Entry(tenant: string): Option<DekEntry>
      reads svc.kms
    {
      EntryFor(svc.kms.p, svc.kms.master, svc.system, svc.kms.rows, tenant)
    }

    constructor (svc: EncryptionService, fields: seq<Field>, defaults: Row, table: Table)
      ensures this.svc == svc && this.fields == fields && this.defaults == defaults && this.table == table
    {
      this.svc, this.fields, this.defaults, this.table := svc, fields, defaults, table;
    }

    /** What is cached for a tenant is its resolution. */
    lemma CachedEntry(tenant: string)
      requires Valid() && tenant in svc.dekCache
      ensures Entry(tenant) == Some(svc.dekCache[tenant].value)
      ensures svc.dekCache[tenant].value == SealedMark ==>
                && IsSealed(svc.kms.rows, tenant) && tenant in svc.sealedCache
                && svc.sealedCache[tenant].value == svc.kms.rows[tenant].blob
    {
      assert Lives(svc.dekCache, tenant, svc.since);
      assert tenant in svc.sealedCache ==> Lives(svc.sealedCache, tenant, svc.since);
    }

    /** `encrypt_fields`, after `get_dek` has run for the tenant. */
    method EncryptFields(id: string, plain: Row, random: Randomness) returns (row: Row, ghost sealedLive: bool)
      requires Valid()
      requires TenantOf(plain) != "" ==> (TenantOf(plain) in svc.dekCache <==> Entry(TenantOf(plain)) != None)
      modifies svc`now, svc`pauses
      ensures Valid()
      ensures Protected(svc.kms.p, fields, Entry(TenantOf(plain)), svc.kms.rows, sealedLive, id, plain, row)
      ensures TenantOf(plain) in svc.sealedCache ==>
                sealedLive == (svc.sealedCache[TenantOf(plain)].expiry >= svc.now)
      ensures svc.now >= old(svc.now) && (old(svc.pauses) == [] ==> svc.now == old(svc.now))
    {
      var tenant := TenantOf(plain);
      sealedLive := tenant in svc.sealedCache && svc.sealedCache[tenant].expiry >= svc.now;
      if tenant == "" || tenant !in svc.dekCache { return plain, sealedLive; }
      var aad := Aad(svc.kms.p, tenant, id);
      CachedEntry(tenant);
      match svc.dekCache[tenant].value {
        case DisabledMark =>
          return plain, sealedLive;
        case KeyEntry(dek) =>
          row := EncryptRow(svc.kms.p, fields, plain, dek, aad, random.nonces);
        case SealedMark =>
          row, sealedLive := EncryptSealed(id, plain, random);
      }
    }

    /** `_encrypt_fields_sealed`: without a living key the row stays as it is. */
    method EncryptSealed(id: string, plain: Row, random: Randomness) returns (row: Row, ghost sealedLive: bool)
      requires Valid() && TenantOf(plain) != "" && TenantOf(plain) in svc.sealedCache
      modifies svc`now, svc`pauses
      ensures Valid()
      ensures if sealedLive then
                Seals(svc.kms.p, fields, svc.sealedCache[TenantOf(plain)].value,
                      Aad(svc.kms.p, TenantOf(plain), id), plain, row)
              else row == plain
      ensures sealedLive == (svc.sealedCache[TenantOf(plain)].expiry >= svc.now)
      ensures svc.now >= old(svc.now) && (old(svc.pauses) == [] ==> svc.now == old(svc.now))
    {
      var tenant := TenantOf(plain);
      var t := svc.ReadClock();
      sealedLive := svc.sealedCache[tenant].expiry >= t;
      if svc.sealedCache[tenant].expiry < t { return plain, sealedLive; }
      row := SealRow(svc.kms.p, fields, plain, svc.sealedCache[tenant].value, Aad(svc.kms.p, tenant, id),
                     random.ephemerals);
    }

    /** The tenant's resolution is fixed: its own row or the system's is there. */
    ghost predicate Settled(tenant: string)
      reads svc`dekCache, svc.kms
    {
      && (tenant in svc.kms.rows || svc.system in svc.kms.rows)
      && (tenant in svc.dekCache <==> Entry(tenant) != None)
    }

    /** What loading does to a sealed tenant's public key in its cache. */
    ghost predicate AfterLoading(deks: DekCache, sealeds: KeyCache, before: nat,
                                 tenant: string, after: nat)
      reads svc`sealedCache, svc.kms
    {
      Loaded(svc.system, svc.kms.rows, deks, sealeds, svc.sealedCache, before, tenant, after, svc.ttl)
    }

    lemma LaterLoading(deks: DekCache, sealeds: KeyCache, before: nat,
                       tenant: string, after: nat, later: nat)
      requires AfterLoading(deks, sealeds, before, tenant, after) && after <= later
      ensures AfterLoading(deks, sealeds, before, tenant, later)
    {
    }

    /** Load one tenant's key and mode; what was settled stays as it is. */
    method LoadTenant(tenant: string, newKey: Bytes, nonce: Bytes) returns (mode: Mode)
      requires Valid() && |nonce| == NONCE_LENGTH && tenant != ""
      modifies svc, svc.kms
      ensures Valid() && Settled(tenant) && mode == ModeOf(svc.kms.rows, tenant)
      ensures OnlySystemKeyMade(old(svc.kms.rows), svc.kms.rows, svc.system)
      ensures svc.now >= old(svc.now) && svc.OthersAlone(old(svc.dekCache), old(svc.sealedCache), {tenant, svc.system})
      ensures AfterLoading(old(svc.dekCache), old(svc.sealedCache), old(svc.now), tenant, svc.now)
      ensures forall u :: old(Settled(u)) ==> Settled(u) && ModeOf(svc.kms.rows, u) == old(ModeOf(svc.kms.rows, u))
    {
      ghost var before := svc.kms.rows;
      var _ := svc.GetDek(tenant, newKey, nonce);
      ghost var loaded := svc.now;
      forall u | old(Settled(u)) ensures Settled(u) {
        RowsDecide(svc.kms.p, svc.kms.master, svc.system, before, svc.kms.rows, u);
      }
      var answer := svc.GetTenantMode(tenant);
      mode := answer.value;
      if tenant != svc.system && IsSealed(svc.kms.rows, tenant) {
        KeyAfterLater(Look(old(svc.dekCache), tenant), Look(old(svc.sealedCache), tenant),
                      Look(svc.sealedCache, tenant),
                      old(svc.now), loaded, old(svc.now), svc.now, svc.ttl);
      }
    }

    /** Load the keys of some tenants and note their modes. */
    method LoadTenants(tenants: set<string>, newKey: Bytes, nonce: Bytes) returns (modes: map<string, Mode>)
      requires Valid() && |nonce| == NONCE_LENGTH && "" !in tenants
      modifies svc, svc.kms
      ensures modes.Keys == tenants
      ensures Loading(old(svc.kms.rows), old(svc.dekCache), old(svc.sealedCache), old(svc.now), modes)
    {
      modes := map[];
      var rest := tenants;
      ghost var rows, deks, sealeds, start := svc.kms.rows, svc.dekCache, svc.sealedCache, svc.now;
      LoadingStarts();
      while rest != {}
        invariant rest <= tenants && modes.Keys == tenants - rest
        invariant Loading(rows, deks, sealeds, start, modes)
        decreases |rest|
      {
        var t :| t in rest;
        OneLess(tenants, rest, t);
        modes := LoadNext(t, newKey, nonce, modes, rows, deks, sealeds, start);
        rest := rest - {t};
      }
    }

    /** The state of the loop, given what the table, the caches and the clock were at its start. */
    ghost predicate Loading(rows: Rows, deks: DekCache, sealeds: KeyCache, start: nat,
                            modes: map<string, Mode>)
      reads svc`dekCache, svc`modeCache, svc`sealedCache, svc`now, svc`since, svc.kms
    {
      && Valid() && ModesRight(modes) && OnlySystemKeyMade(rows, svc.kms.rows, svc.system) && start <= svc.now
      && LoadingDone(svc.system, svc.kms.rows, deks, sealeds, svc.dekCache, svc.sealedCache, start, svc.now, svc.ttl,
                     modes.Keys)
    }

    lemma LoadingStarts()
      requires Valid()
      ensures Loading(svc.kms.rows, svc.dekCache, svc.sealedCache, svc.now, map[])
    {
    }

    /** Load one more tenant. */
    method LoadNext(t: string, newKey: Bytes, nonce: Bytes, modes: map<string, Mode>, ghost rows: Rows,
                    ghost deks: DekCache, ghost sealeds: KeyCache, ghost start: nat)
      returns (modes': map<string, Mode>)
      requires |nonce| == NONCE_LENGTH && t != "" && t !in modes && Loading(rows, deks, sealeds, start, modes)
      modifies svc, svc.kms
      ensures modes'.Keys == modes.Keys + {t} && Loading(rows, deks, sealeds, start, modes')
    {
      ghost var deks1, sealeds1, now, rows1 := svc.dekCache, svc.sealedCache, svc.now, svc.kms.rows;
      var mode := LoadTenant(t, newKey, nonce);
      modes' := modes[t := mode];
      LoadingStep(svc.system, rows1, svc.kms.rows, deks, sealeds, deks1, sealeds1, svc.dekCache, svc.sealedCache,
                  start, now, svc.now, svc.ttl, modes.Keys, t);
      assert modes'.Keys == modes.Keys + {t};
    }

    /** The flag says whether the cached key of a sealed tenant lives at the time when
        encryption looks at it. */
    ghost predicate Timed(e: Entity, stamp: Stamp)
      reads svc`sealedCache, svc.kms
    {
      TenantOf(e.data) != "" && IsSealed(svc.kms.rows, TenantOf(e.data)) ==>
        && TenantOf(e.data) in svc.sealedCache
        && stamp.live == (svc.sealedCache[TenantOf(e.data)].expiry >= stamp.time)
    }

    ghost predicate PreparedAt(e: Entity, q: Entity, stamp: Stamp, from: nat, to: nat)
      reads svc`sealedCache, svc.kms
    {
      Prepared(This(), fields, svc.kms.rows, e, q, stamp.live) && Timed(e, stamp) && from <= stamp.time <= to
    }

    /** `model_dump`, encryption and the stamp for one entity. */
    method Prepare(e: Entity, modes: map<string, Mode>, random: Randomness) returns (q: Entity, ghost stamp: Stamp)
      requires Valid()
      requires TenantOf(e.data) != "" ==> Settled(TenantOf(e.data))
      requires TenantOf(e.data) != "" ==>
                 TenantOf(e.data) in modes && modes[TenantOf(e.data)] == ModeOf(svc.kms.rows, TenantOf(e.data))
      modifies svc`now, svc`pauses
      ensures Valid() && svc.now >= old(svc.now) && PreparedAt(e, q, stamp, old(svc.now), svc.now)
    {
      var tenant := TenantOf(e.data);
      ghost var sealedLive;
      var row;
      row, sealedLive := EncryptFields(e.id, e.data, random);
      var level := LevelName(if tenant == "" then None else Some(modes[tenant]));
      q := Entity(e.id, row[LEVEL := level], e.unset);
      assert PreparedAs(This(), fields, svc.kms.rows, e, q, row, sealedLive);
      stamp := Stamp(sealedLive, svc.now);
    }

    ghost predicate ModesRight(modes: map<string, Mode>)
      reads svc`dekCache, svc.kms
    {
      forall t :: t in modes ==> Settled(t) && modes[t] == ModeOf(svc.kms.rows, t)
    }

    lemma MorePrepared(entities: seq<Entity>, rows: seq<Entity>, stamps: seq<Stamp>, q: Entity, stamp: Stamp,
                       from: nat, mid: nat, to: nat)
      requires |rows| == |stamps| < |entities| && from <= mid <= to
      requires forall j :: 0 <= j < |rows| ==> PreparedAt(entities[j], rows[j], stamps[j], from, mid)
      requires PreparedAt(entities[|rows|], q, stamp, mid, to)
      ensures forall j :: 0 <= j < |rows| + 1 ==>
                PreparedAt(entities[j], (rows + [q])[j], (stamps + [stamp])[j], from, to)
    {
      forall j | 0 <= j < |rows| + 1
        ensures PreparedAt(entities[j], (rows + [q])[j], (stamps + [stamp])[j], from, to)
      {
        if j < |rows| { assert PreparedAt(entities[j], rows[j], stamps[j], from, mid); }
      }
    }

    /** The rows of a whole batch. */
    method PrepareAll(entities: seq<Entity>, modes: map<string, Mode>, random: string -> Randomness)
      returns (rows: seq<Entity>, ghost stamps: seq<Stamp>)
      requires Valid() && ModesRight(modes)
      requires forall e :: e in entities && TenantOf(e.data) != "" ==> TenantOf(e.data) in modes
      modifies svc`now, svc`pauses
      ensures Valid() && |rows| == |stamps| == |entities| && svc.now >= old(svc.now)
      ensures forall i :: 0 <= i < |entities| ==> PreparedAt(entities[i], rows[i], stamps[i], old(svc.now), svc.now)
    {
      rows, stamps := [], [];
      for i := 0 to |entities|
        invariant Valid() && ModesRight(modes) && |rows| == |stamps| == i && svc.now >= old(svc.now)
        invariant forall j :: 0 <= j < i ==> PreparedAt(entities[j], rows[j], stamps[j], old(svc.now), svc.now)
      {
        var e := entities[i];
        assert e in entities;
        var q;
        ghost var stamp, now := Stamp(false, 0), svc.now;
        q, stamp := Prepare(e, modes, random(e.id));
        MorePrepared(entities, rows, stamps, q, stamp, old(svc.now), now, svc.now);
        rows, stamps := rows + [q], stamps + [stamp];
      }
    }

    /** Load the keys and modes of the tenants of a batch. */
    method LoadFor(entities: seq<Entity>, newKey: Bytes, nonce: Bytes) returns (modes: map<string, Mode>)
      requires Valid() && |nonce| == NONCE_LENGTH
      modifies svc, svc.kms
      ensures Valid() && ModesRight(modes) && svc.now >= old(svc.now)
      ensures OnlySystemKeyMade(old(svc.kms.rows), svc.kms.rows, svc.system)
      ensures forall e :: e in entities && TenantOf(e.data) != "" ==> TenantOf(e.data) in modes
      ensures forall e :: e in entities ==>
                AfterLoading(old(svc.dekCache), old(svc.sealedCache), old(svc.now), TenantOf(e.data), svc.now)
    {
      var tenants := set e | e in entities && TenantOf(e.data) != "" :: TenantOf(e.data);
      modes := LoadTenants(tenants, newKey, nonce);
    }

    /** Load what the batch needs, then prepare its rows. */
    method LoadAndPrepare(entities: seq<Entity>, newKey: Bytes, nonce: Bytes, random: string -> Randomness)
      returns (rows: seq<Entity>, ghost stamps: seq<Stamp>)
      requires Valid() && |nonce| == NONCE_LENGTH
      modifies svc, svc.kms
      ensures Valid() && |rows| == |stamps| == |entities| && svc.now >= old(svc.now)
      ensures OnlySystemKeyMade(old(svc.kms.rows), svc.kms.rows, svc.system)
      ensures forall i :: 0 <= i < |entities| ==> PreparedAt(entities[i], rows[i], stamps[i], old(svc.now), svc.now)
      ensures forall i :: 0 <= i < |entities| ==>
                AfterLoading(old(svc.dekCache), old(svc.sealedCache), old(svc.now), TenantOf(entities[i].data),
                             stamps[i].time)
      ensures forall e :: e in entities && TenantOf(e.data) != "" ==> Settled(TenantOf(e.data))
    {
      var modes := LoadFor(entities, newKey, nonce);
      ghost var loaded := svc.now;
      rows, stamps := PrepareAll(entities, modes, random);
      forall i | 0 <= i < |entities|
        ensures AfterLoading(old(svc.dekCache), old(svc.sealedCache), old(svc.now), TenantOf(entities[i].data),
                             stamps[i].time)
      {
        var t := TenantOf(entities[i].data);
        assert entities[i] in entities && PreparedAt(entities[i], rows[i], stamps[i], loaded, svc.now);
        LaterLoading(old(svc.dekCache), old(svc.sealedCache), old(svc.now), t, loaded, stamps[i].time);
      }
    }

    /** `upsert`: what it prepares for each entity goes to the table in one statement.  A
        sealed tenant's row is sealed exactly if its flag is set, that is if the cached key
        lives at the clock reading of its encryption. */
    method Upsert(entities: seq<Entity>, newKey: Bytes, nonce: Bytes, random: string -> Randomness)
      returns (ok: bool, ghost prepared: seq<Entity>, ghost stamps: seq<Stamp>)
      requires Valid() && |nonce| == NONCE_LENGTH
      modifies svc, svc.kms, this`table
      ensures Valid() && |prepared| == |stamps| == |entities|
      ensures OnlySystemKeyMade(old(svc.kms.rows), svc.kms.rows, svc.system)
      ensures forall i :: 0 <= i < |entities| ==> PreparedAt(entities[i], prepared[i], stamps[i], old(svc.now), svc.now)
      ensures forall i :: 0 <= i < |entities| ==>
                AfterLoading(old(svc.dekCache), old(svc.sealedCache), old(svc.now), TenantOf(entities[i].data),
                             stamps[i].time)
      ensures forall e :: e in entities && TenantOf(e.data) != "" ==> Settled(TenantOf(e.data))
      ensures var after := BulkUpsert(old(table), prepared, defaults);
              ok == after.Some? && table == if ok then after.value else old(table)
    {
      var rows;
      rows, stamps := LoadAndPrepare(entities, newKey, nonce, random);
      prepared := rows;
      if rows == [] {
        return true, prepared, stamps;
      }
      var after := BulkUpsert(table, rows, defaults);
      ok := after != None;
      if ok { table := after.value; }
    }

    /** `get_for_tenant`: only rows stamped "platform" are decrypted, and rows without a
        stamp when the caller names a tenant. */
    method GetForTenant(id: string, tenant: string, newKey: Bytes, nonce: Bytes) returns (row: Option<Row>)
      requires Valid() && |nonce| == NONCE_LENGTH
      modifies svc, svc.kms
      ensures Valid()
      ensures OnlySystemKeyMade(old(svc.kms.rows), svc.kms.rows, svc.system)
      ensures id !in table || "deleted_at" in table[id] ==> row == None
      ensures id in table && "deleted_at" !in table[id] ==> row != None
      ensures id in table && "deleted_at" !in table[id] && LEVEL in table[id] ==>
                row == Some(ReadWith(This(), fields, svc.kms.rows, id, table[id],
                                     if tenant != "" then tenant else TenantOf(table[id])))
    {
      if id !in table || "deleted_at" in table[id] { return None; }
      var stored := table[id];
      var effective := if tenant != "" then tenant else TenantOf(stored);
      var stamped := LEVEL in stored && stored[LEVEL] == "platform";
      if stamped && effective != "" {
        var _ := svc.GetDek(effective, newKey, nonce);
      }
      if effective == "" || !(stamped || (LEVEL !in stored && tenant != "")) { return Some(stored); }
      var plain := DecryptFields(id, stored, effective);
      return Some(plain);
    }

    /** `decrypt_fields`, with what is cached for the tenant. */
    method DecryptFields(id: string, stored: Row, tenant: string) returns (plain: Row)
      requires Valid() && tenant != ""
      requires LEVEL in stored && stored[LEVEL] == "platform" ==>
                 (tenant in svc.dekCache <==> Entry(tenant) != None)
      ensures LEVEL in stored && stored[LEVEL] == "platform" ==>
                plain == ReadWith(This(), fields, svc.kms.rows, id, stored, tenant)
    {
      if tenant !in svc.dekCache { return stored; }
      CachedEntry(tenant);
      match svc.dekCache[tenant].value {
        case KeyEntry(dek) => plain := DecryptRow(svc.kms.p, fields, stored, dek, Aad(svc.kms.p, tenant, id));
        case _ => plain := stored;
      }
    }
  }
}
