/** Envelope encryption: which key a tenant has, with three caches over the key table. */
module Encryption {
  import opened Options
  import opened Crypto
  import opened KeyTable

  // ----- Resolution without caches

  /** Disabled and sealed tenants have no key, an own key comes first, and everybody
      else has the system key. */
  function Resolve(p: Primitives, master: Bytes, system: string, rows: Rows, tenant: string): Option<Bytes>
    decreases tenant != system
  {
    if IsDisabled(rows, tenant) || IsSealed(rows, tenant) then None
    else if IsActive(rows, tenant) then Unwrapped(p, master, tenant, rows[tenant].blob)
    else if tenant == system then None
    else Resolve(p, master, system, rows, system)
  }

  /** The system key is made when it is first needed. */
  function WithSystemKey(p: Primitives, master: Bytes, system: string, rows: Rows, tenant: string,
                         newKey: Bytes, nonce: Bytes): Rows
  {
    if tenant !in rows && system !in rows then
      rows[system := KeyRow(Wrap(p, master, system, nonce, newKey), Active, Platform)]
    else rows
  }

  /** Nothing happened to the table, except that the system key may have been made. */
  predicate OnlySystemKeyMade(rows: Rows, after: Rows, system: string) {
    && after.Keys <= rows.Keys + {system}
    && (forall t :: t in rows ==> t in after && after[t] == rows[t])
    && (system in after && system !in rows ==> after[system].status == Active && after[system].mode == Platform)
  }

  /** A tenant without an active row counts as platform mode, also when disabled. */
  function ModeOf(rows: Rows, tenant: string): Mode {
    if IsActive(rows, tenant) then rows[tenant].mode else Platform
  }

  /** Own keys open with the master key. */
  ghost predicate TableValid(p: Primitives, master: Bytes, rows: Rows) {
    forall t :: IsActive(rows, t) && rows[t].mode != Sealed ==> Unwrapped(p, master, t, rows[t].blob) != None
  }

  /** The table after `configure_tenant`. */
  function Configured(p: Primitives, master: Bytes, rows: Rows, tenant: string,
                      enabled: bool, ownKey: bool, mode: Mode, newKey: Bytes, nonce: Bytes): Rows
  {
    if !enabled then DisabledRows(rows, tenant)
    else if ownKey then rows[tenant := KeyRow(Wrap(p, master, tenant, nonce, newKey), Active, mode)]
    else rows - {tenant}
  }

  // ----- The service

  datatype DekEntry = KeyEntry(dek: Bytes) | DisabledMark | SealedMark

  datatype Cached<+T> = Cached(value: T, expiry: nat)

  type DekCache = map<string, Cached<DekEntry>>
  type ModeCache = map<string, Cached<Mode>>
  type KeyCache = map<string, Cached<Bytes>>

  /** What a new cache entry for the tenant holds; None when nothing is cached. */
  function EntryFor(p: Primitives, master: Bytes, system: string, rows: Rows, tenant: string): Option<DekEntry> {
    if IsDisabled(rows, tenant) then Some(DisabledMark)
    else if IsSealed(rows, tenant) then Some(SealedMark)
    else
      match Resolve(p, master, system, rows, tenant)
      case Some(dek) => Some(KeyEntry(dek))
      case None => None
  }

  /** Without a system key only tenants with a row of their own resolve. */
  lemma OnlyOwnRows(p: Primitives, master: Bytes, system: string, rows: Rows, tenant: string)
    requires system !in rows && EntryFor(p, master, system, rows, tenant) != None
    ensures tenant in rows
  {
    assert Resolve(p, master, system, rows, system) == None;
  }

  /** Two tables that agree on a tenant and on the system tenant. */
  predicate AgreeOn(rows: Rows, rows': Rows, tenant: string) {
    (tenant in rows <==> tenant in rows') && (tenant in rows ==> rows[tenant] == rows'[tenant])
  }

  /** A tenant's resolution depends on its own row, or else on the system's. */
  lemma RowsDecide(p: Primitives, master: Bytes, system: string, rows: Rows, rows': Rows, tenant: string)
    requires AgreeOn(rows, rows', tenant) && (AgreeOn(rows, rows', system) || tenant in rows)
    ensures EntryFor(p, master, system, rows, tenant) == EntryFor(p, master, system, rows', tenant)
  {
    if tenant !in rows {
      assert Resolve(p, master, system, rows, system) == Resolve(p, master, system, rows', system);
    }
  }

  /** An own key resolves to itself, unless its mode is sealed. */
  lemma OwnKeyEntry(p: Primitives, master: Bytes, system: string, rows: Rows, tenant: string,
                    mode: Mode, newKey: Bytes, nonce: Bytes)
    requires Lawful(p) && |nonce| == NONCE_LENGTH
    ensures var rows' := rows[tenant := KeyRow(Wrap(p, master, tenant, nonce, newKey), Active, mode)];
            && Unwrapped(p, master, tenant, rows'[tenant].blob) == Some(newKey)
            && EntryFor(p, master, system, rows', tenant) ==
               Some(if mode == Sealed then SealedMark else KeyEntry(newKey))
  {
    UnwrapUndoesWrap(p, master, tenant, nonce, newKey);
  }

  /** A tenant without a row has the system key, if there is one. */
  lemma RowlessEntry(p: Primitives, master: Bytes, system: string, rows: Rows, tenant: string)
    requires tenant !in rows && tenant != system
    ensures EntryFor(p, master, system, rows, tenant) ==
            match Resolve(p, master, system, rows, system) { case Some(dek) => Some(KeyEntry(dek)) case None => None }
  {
  }

  /** An entry that has not expired at this time; with -1, any entry. */
  predicate Lives<T>(m: map<string, Cached<T>>, t: string, since: int) {
    t in m && m[t].expiry > since
  }

  /** The cached tenants that depend on the system key hold this one; with None, there are
      no such tenants. */
  ghost predicate RowlessHold(deks: DekCache, rows: Rows, system: string, key: Option<Bytes>, since: int) {
    forall t :: Lives(deks, t, since) && t != system && t !in rows ==> HoldsKey(deks[t], key)
  }

  predicate HoldsKey(entry: Cached<DekEntry>, key: Option<Bytes>) {
    key.Some? && entry.value == KeyEntry(key.value)
  }

  function Look<T>(m: map<string, T>, k: string): Option<T> {
    if k in m then Some(m[k]) else None
  }

  /** How `get_dek` leaves a sealed tenant's public key in its cache, by what the two
      caches had and the clock before and after: it is the one that was there, or a new
      one; as long as the mark lives nobody looks at it, and while it lives itself it
      stays. */
  ghost predicate KeyAfter(mark: Option<Cached<DekEntry>>, key: Option<Cached<Bytes>>, key': Option<Cached<Bytes>>,
                           before: nat, after: nat, ttl: nat)
  {
    && key'.Some?
    && (key == key' || before + ttl <= key'.value.expiry <= after + ttl)
    && (key.Some? ==> key'.value.expiry >= key.value.expiry)
    && (mark.Some? && mark.value.expiry > after ==> key == key')
    && (key.Some? && key.value.expiry > after ==> key == key')
    && ((mark.None? || mark.value.expiry <= before) && (key.None? || key.value.expiry <= before) ==>
          key'.value.expiry >= before + ttl)
  }

  /** A cache entry after a call: the one that was there, or a new one, which lives as long
      as it should and no longer. */
  ghost predicate Renewed<T>(was: Option<Cached<T>>, now: Option<Cached<T>>, before: nat, after: nat, ttl: nat) {
    now == was || (now.Some? && before + ttl <= now.value.expiry <= after + ttl)
  }

  lemma KeyAfterLater(mark: Option<Cached<DekEntry>>, key: Option<Cached<Bytes>>, key': Option<Cached<Bytes>>,
                      before: nat, after: nat, earlier: nat, later: nat, ttl: nat)
    requires KeyAfter(mark, key, key', before, after, ttl) && earlier <= before && after <= later
    ensures KeyAfter(mark, key, key', earlier, later, ttl)
  {
  }

  predicate Expired<T>(entry: Option<Cached<T>>, now: nat) {
    entry.None? || entry.value.expiry <= now
  }

  /** Whether a sealed tenant's key lives when encryption looks at it, said by the caches
      before the call: a mark that outlives the call hides an expired key; a key that
      outlives the call lives; and a key that has to be fetched lives if the call takes no
      longer than the time to live.  When the clock stands still these are all cases. */
  ghost predicate LiveAsForeseen(mark: Option<Cached<DekEntry>>, key: Option<Cached<Bytes>>,
                                 before: nat, time: nat, ttl: nat, live: bool)
  {
    && (mark.Some? ==> key.Some?)
    && (mark.Some? && mark.value.expiry > time && key.value.expiry < before ==> !live)
    && (key.Some? && key.value.expiry >= time ==> live)
    && (Expired(mark, before) && Expired(key, before) && time <= before + ttl ==> live)
    && (time == before ==> (live <==> !(mark.Some? && mark.value.expiry > before && key.value.expiry < before)))
  }

  lemma KeyLives(mark: Option<Cached<DekEntry>>, key: Option<Cached<Bytes>>, key': Option<Cached<Bytes>>,
                 before: nat, after: nat, ttl: nat)
    requires KeyAfter(mark, key, key', before, after, ttl) && (mark.Some? ==> key.Some?) && before <= after
    ensures LiveAsForeseen(mark, key, before, after, ttl, key'.value.expiry >= after)
  {
    if before == after && (key.None? || key.value.expiry < after) && Expired(mark, before) {
      assert key'.value.expiry >= before + ttl;
    }
  }

  /** What has not expired in the caches says what the table says. */
  ghost predicate CachesRight(p: Primitives, master: Bytes, system: string, rows: Rows, deks: DekCache,
                              modes: ModeCache, sealeds: KeyCache, since: int)
  {
    && TableValid(p, master, rows)
    && (forall t :: Lives(deks, t, since) ==> EntryFor(p, master, system, rows, t) == Some(deks[t].value))
    && (forall t :: Lives(modes, t, since) ==> modes[t].value == ModeOf(rows, t))
    && (forall t :: Lives(sealeds, t, since) && IsSealed(rows, t) ==> sealeds[t].value == rows[t].blob)
    && (forall t :: t in deks && deks[t].value == SealedMark ==> t in sealeds)
  }

  /** The part of it that is about one tenant. */
  ghost predicate TenantRight(p: Primitives, master: Bytes, system: string, rows: Rows, deks: DekCache,
                              modes: ModeCache, sealeds: KeyCache, t: string, since: int)
  {
    && (Lives(deks, t, since) ==> EntryFor(p, master, system, rows, t) == Some(deks[t].value))
    && (Lives(modes, t, since) ==> modes[t].value == ModeOf(rows, t))
    && (Lives(sealeds, t, since) && IsSealed(rows, t) ==> sealeds[t].value == rows[t].blob)
    && (t in deks && deks[t].value == SealedMark ==> t in sealeds)
    && (IsActive(rows, t) && rows[t].mode != Sealed ==> Unwrapped(p, master, t, rows[t].blob) != None)
  }

  /** Another tenant's change leaves a tenant's answers right, unless it is the system
      tenant's and this one depends on it: then exactly if it holds the new key. */
  lemma OtherTenantRight(p: Primitives, master: Bytes, system: string, rows: Rows, rows': Rows,
                         deks: DekCache, modes: ModeCache,
                         sealeds: KeyCache, tenant: string, t: string, since: int, later: int)
    requires TenantRight(p, master, system, rows, deks, modes, sealeds, t, since) && t != tenant && since <= later
    requires AgreeOn(rows, rows', t) && (tenant != system ==> AgreeOn(rows, rows', system))
    ensures TenantRight(p, master, system, rows', deks, modes, sealeds, t, later) <==>
            (tenant == system && Lives(deks, t, later) && t !in rows ==>
               HoldsKey(deks[t], Resolve(p, master, system, rows', system)))
  {
    if t in rows || tenant != system {
      RowsDecide(p, master, system, rows, rows', t);
    } else {
      RowlessEntry(p, master, system, rows', t);
    }
  }

  lemma RightIff(p: Primitives, master: Bytes, system: string, rows: Rows, deks: DekCache,
                 modes: ModeCache, sealeds: KeyCache, since: int)
    ensures CachesRight(p, master, system, rows, deks, modes, sealeds, since) <==>
            forall t :: TenantRight(p, master, system, rows, deks, modes, sealeds, t, since)
  {
    if forall t :: TenantRight(p, master, system, rows, deks, modes, sealeds, t, since) {
      forall t ensures Lives(deks, t, since) ==> EntryFor(p, master, system, rows, t) == Some(deks[t].value)
               ensures Lives(modes, t, since) ==> modes[t].value == ModeOf(rows, t)
               ensures Lives(sealeds, t, since) && IsSealed(rows, t) ==> sealeds[t].value == rows[t].blob
               ensures t in deks && deks[t].value == SealedMark ==> t in sealeds
               ensures IsActive(rows, t) && rows[t].mode != Sealed ==> Unwrapped(p, master, t, rows[t].blob) != None
      {
        assert TenantRight(p, master, system, rows, deks, modes, sealeds, t, since);
      }
    }
  }

  /** When one tenant's row and entries change, what lives later is right exactly if the new
      entries are, and if, in case it is the system tenant, those that depend on its key
      hold the new one. */
  lemma ChangeKeepsRight(p: Primitives, master: Bytes, system: string, rows: Rows, rows': Rows,
                         deks: DekCache, modes: ModeCache, sealeds: KeyCache,
                         deks': DekCache, modes': ModeCache, sealeds': KeyCache,
                         tenant: string, since: int, later: int)
    requires CachesRight(p, master, system, rows, deks, modes, sealeds, since) && since <= later
    requires forall t :: t != tenant ==> AgreeOn(rows, rows', t)
    requires forall t :: t != tenant ==>
               Look(deks', t) == Look(deks, t) && Look(modes', t) == Look(modes, t) &&
               Look(sealeds', t) == Look(sealeds, t)
    ensures CachesRight(p, master, system, rows', deks', modes', sealeds', later) <==>
            && TenantRight(p, master, system, rows', deks', modes', sealeds', tenant, later)
            && (tenant == system ==> RowlessHold(deks, rows, system, Resolve(p, master, system, rows', system), later))
  {
    RightIff(p, master, system, rows, deks, modes, sealeds, since);
    RightIff(p, master, system, rows', deks', modes', sealeds', later);
    forall t | t != tenant
      ensures TenantRight(p, master, system, rows', deks', modes', sealeds', t, later) <==>
              (tenant == system && Lives(deks, t, later) && t !in rows ==>
                 HoldsKey(deks[t], Resolve(p, master, system, rows', system)))
    {
      assert TenantRight(p, master, system, rows, deks, modes, sealeds, t, since);
      assert Look(deks', t) == Look(deks, t) && Look(modes', t) == Look(modes, t) &&
             Look(sealeds', t) == Look(sealeds, t);
      assert AgreeOn(rows, rows', t);
      OtherTenantRight(p, master, system, rows, rows', deks, modes, sealeds, tenant, t, since, later);
    }
  }

  /** The cached own key has expired, and so has another public key of the tenant. */
  predicate OwnKeyGone(deks: DekCache, sealeds: KeyCache, tenant: string, blob: Bytes, later: int) {
    !Lives(deks, tenant, later) && (Lives(sealeds, tenant, later) ==> sealeds[tenant].value == blob)
  }

  /** A tenant's new own key is right unless its mode is sealed; then it must be gone. */
  lemma OwnKeyRight(p: Primitives, master: Bytes, system: string, rows: Rows, deks: DekCache,
                    modes: ModeCache, sealeds: KeyCache, t: string, mode: Mode, key: Bytes, blob: Bytes, later: int)
    requires t in rows && rows[t] == KeyRow(blob, Active, mode) && Unwrapped(p, master, t, blob) == Some(key)
    requires t in deks && deks[t].value == KeyEntry(key) && t in modes && modes[t].value == mode
    ensures TenantRight(p, master, system, rows, deks, modes, sealeds, t, later) <==>
            (mode == Sealed ==> OwnKeyGone(deks, sealeds, t, blob, later))
    ensures t == system ==>
              Resolve(p, master, system, rows, system) == if mode == Sealed then None else Some(key)
  {
  }

  lemma SealedRight(p: Primitives, master: Bytes, system: string, rows: Rows, deks: DekCache,
                    modes: ModeCache, sealeds: KeyCache, t: string, pem: Bytes, since: int)
    requires t in rows && rows[t] == KeyRow(pem, Active, Sealed)
    requires t in deks && deks[t].value == SealedMark && t in modes && modes[t].value == Sealed
    requires t in sealeds && sealeds[t].value == pem
    ensures TenantRight(p, master, system, rows, deks, modes, sealeds, t, since)
    ensures Resolve(p, master, system, rows, t) == None
  {
  }

  lemma SealedAlwaysRight(p: Primitives, master: Bytes, system: string, rows: Rows, deks: DekCache,
                          modes: ModeCache, sealeds: KeyCache, t: string, pem: Bytes)
    requires t in rows && rows[t] == KeyRow(pem, Active, Sealed)
    requires t in deks && deks[t].value == SealedMark && t in modes && modes[t].value == Sealed
    requires t in sealeds && sealeds[t].value == pem
    ensures forall later :: TenantRight(p, master, system, rows, deks, modes, sealeds, t, later)
    ensures Resolve(p, master, system, rows, t) == None
  {
    forall later ensures TenantRight(p, master, system, rows, deks, modes, sealeds, t, later) {
      SealedRight(p, master, system, rows, deks, modes, sealeds, t, pem, later);
    }
  }

  class EncryptionService {
    const kms: LocalFileKMS
    const system: string
    const ttl: nat
    var dekCache: DekCache
    var modeCache: ModeCache
    var sealedCache: KeyCache
    var now: nat
    var pauses: seq<nat>   // how far the clock advances before each reading
    ghost var since: int   // cache entries that have expired by then do not count

    ghost predicate CoherentSince(since: int)
      reads this`dekCache, this`modeCache, this`sealedCache, kms
    {
      Lawful(kms.p) && CachesRight(kms.p, kms.master, system, kms.rows, dekCache, modeCache, sealedCache, since)
    }

    ghost predicate Coherent()
      reads this`dekCache, this`modeCache, this`sealedCache, this`now, this`since, kms
    {
      CoherentSince(since) && since <= now
    }

    constructor (kms: LocalFileKMS, system: string, ttl: nat, pauses: seq<nat>)
      ensures this.kms == kms && this.system == system && this.ttl == ttl && this.pauses == pauses
      ensures dekCache == map[] && modeCache == map[] && sealedCache == map[]
      ensures now == 0 && since == -1
      ensures Lawful(kms.p) && TableValid(kms.p, kms.master, kms.rows) ==> Coherent()
    {
      this.kms, this.system, this.ttl, this.pauses, this.now, this.since := kms, system, ttl, pauses, 0, -1;
      dekCache, modeCache, sealedCache := map[], map[], map[];
    }

    method ReadClock() returns (t: nat)
      modifies this`now, this`pauses
      ensures t == now >= old(now)
      ensures old(pauses) == [] ==> pauses == [] && now == old(now)
      ensures old(pauses) != [] ==> now == old(now) + old(pauses)[0] && pauses == old(pauses)[1..]
    {
      if pauses != [] {
        now, pauses := now + pauses[0], pauses[1..];
      }
      return now;
    }

    method CacheDek(tenant: string, entry: DekEntry)
      requires Coherent() && EntryFor(kms.p, kms.master, system, kms.rows, tenant) == Some(entry)
      requires entry == SealedMark ==> tenant in sealedCache
      modifies this`dekCache, this`now, this`pauses
      ensures Coherent() && dekCache == old(dekCache)[tenant := Cached(entry, now + ttl)] && now >= old(now)
      ensures old(pauses) == [] ==> pauses == [] && now == old(now)
    {
      var t := ReadClock();
      dekCache := dekCache[tenant := Cached(entry, t + ttl)];
    }

    method GetSealedPubkey(tenant: string) returns (key: Option<Bytes>)
      requires Coherent()
      modifies this`sealedCache, this`now, this`pauses
      ensures Coherent() && old(sealedCache.Keys) <= sealedCache.Keys
      ensures old(pauses) == [] ==> pauses == [] && now == old(now)
      ensures IsSealed(kms.rows, tenant) ==> tenant in sealedCache && key == Some(kms.rows[tenant].blob)
      ensures now >= old(now) && forall t :: t != tenant ==> Look(sealedCache, t) == Look(old(sealedCache), t)
      ensures IsSealed(kms.rows, tenant) ==>
                KeyAfter(None, Look(old(sealedCache), tenant), Look(sealedCache, tenant), old(now), now, ttl)
    {
      if tenant in sealedCache {
        var t := ReadClock();
        if sealedCache[tenant].expiry > t { return Some(sealedCache[tenant].value); }
      }
      var pem := kms.QuerySealedKey(tenant);
      if pem == None { return None; }
      var t := ReadClock();
      sealedCache := sealedCache[tenant := Cached(pem.value, t + ttl)];
      return pem;
    }

    /** A live cache entry, if there is one. */
    method LookUpDek(tenant: string) returns (entry: Option<DekEntry>)
      modifies this`now, this`pauses
      ensures old(Coherent()) ==> Coherent()
      ensures now >= old(now)
      ensures old(pauses) == [] ==> pauses == [] && now == old(now)
      ensures tenant in dekCache && old(pauses) != [] ==> now == old(now) + old(pauses)[0] && pauses == old(pauses)[1..]
      ensures entry == if tenant in dekCache && dekCache[tenant].expiry > now then Some(dekCache[tenant].value)
              else None
    {
      if tenant in dekCache {
        var t := ReadClock();
        if dekCache[tenant].expiry > t { return Some(dekCache[tenant].value); }
      }
      return None;
    }

    /** The system tenant generates its own key. */
    method MakeSystemKey(newKey: Bytes, nonce: Bytes)
      requires Coherent() && |nonce| == NONCE_LENGTH && system !in kms.rows
      modifies kms
      ensures Coherent() && Resolve(kms.p, kms.master, system, kms.rows, system) == Some(newKey)
      ensures kms.rows == WithSystemKey(kms.p, kms.master, system, old(kms.rows), system, newKey, nonce)
    {
      UnwrapUndoesWrap(kms.p, kms.master, system, nonce, newKey);
      ghost var row := KeyRow(Wrap(kms.p, kms.master, system, nonce, newKey), Active, Platform);
      forall t | t in dekCache
        ensures Lives(dekCache, t, since) ==>
                  EntryFor(kms.p, kms.master, system, kms.rows[system := row], t) == Some(dekCache[t].value)
      {
        if Lives(dekCache, t, since) {
          OnlyOwnRows(kms.p, kms.master, system, kms.rows, t);
          RowsDecide(kms.p, kms.master, system, kms.rows, kms.rows[system := row], t);
        }
      }
      kms.WrapAndStoreDek(system, newKey, Platform, nonce);
    }

    /** The entries of all but these tenants are as they were. */
    ghost predicate OthersAlone(deks: DekCache, sealeds: KeyCache, tenants: set<string>)
      reads this`dekCache, this`sealedCache
    {
      forall t :: t !in tenants ==> Look(dekCache, t) == Look(deks, t) && Look(sealedCache, t) == Look(sealeds, t)
    }

    /** The tenants that the system key does not concern: disabled, sealed, or with an
        own key. */
    method GetOwnDek(tenant: string) returns (decided: bool, dek: Option<Bytes>)
      requires Coherent()
      modifies this`dekCache, this`sealedCache, this`now, this`pauses
      ensures Coherent() && decided == (tenant in kms.rows)
      ensures decided ==> dek == Resolve(kms.p, kms.master, system, kms.rows, tenant) && tenant in dekCache
      ensures old(dekCache.Keys) <= dekCache.Keys && (!decided ==> dekCache == old(dekCache))
      ensures old(pauses) == [] ==> pauses == [] && now == old(now)
      ensures decided && old(pauses) == [] && ttl > 0 ==> dekCache[tenant].expiry > now
      ensures now >= old(now) && OthersAlone(old(dekCache), old(sealedCache), {tenant})
      ensures Renewed(Look(old(dekCache), tenant), Look(dekCache, tenant), old(now), now, ttl)
      ensures IsSealed(kms.rows, tenant) ==>
                KeyAfter(None, Look(old(sealedCache), tenant), Look(sealedCache, tenant), old(now), now, ttl)
    {
      decided := true;
      var disabled := kms.QueryDisabled(tenant);
      if disabled {
        CacheDek(tenant, DisabledMark);
        return true, None;
      }
      var mode := kms.QueryMode(tenant);
      if mode == Some(Sealed) {
        var _ := GetSealedPubkey(tenant);
        CacheDek(tenant, SealedMark);
        return true, None;
      }
      dek := kms.UnwrapDek(tenant);
      if dek != None {
        CacheDek(tenant, KeyEntry(dek.value));
        return true, dek;
      }
      decided := false;
    }

    /** Make the system key and cache it. */
    method StoreSystemKey(newKey: Bytes, nonce: Bytes)
      requires Coherent() && |nonce| == NONCE_LENGTH && system !in kms.rows
      modifies this`dekCache, this`now, this`pauses, kms
      ensures Coherent() && now >= old(now) && system in dekCache
      ensures Resolve(kms.p, kms.master, system, kms.rows, system) == Some(newKey)
      ensures kms.rows == WithSystemKey(kms.p, kms.master, system, old(kms.rows), system, newKey, nonce)
      ensures dekCache == old(dekCache)[system := Cached(KeyEntry(newKey), now + ttl)]
      ensures old(pauses) == [] ==> pauses == [] && now == old(now)
    {
      MakeSystemKey(newKey, nonce);
      CacheDek(system, KeyEntry(newKey));
    }

    /** `get_dek`: the answer, the table and the caches agree with the resolution that
        uses no cache. */
    method GetDek(tenant: string, newKey: Bytes, nonce: Bytes) returns (dek: Option<Bytes>)
      requires Coherent() && |nonce| == NONCE_LENGTH
      modifies this`dekCache, this`sealedCache, this`now, this`pauses, kms
      ensures Coherent()
      ensures kms.rows == WithSystemKey(kms.p, kms.master, system, old(kms.rows), tenant, newKey, nonce)
      ensures dek == Resolve(kms.p, kms.master, system, kms.rows, tenant)
      ensures EntryFor(kms.p, kms.master, system, kms.rows, tenant) != None ==> tenant in dekCache
      ensures old(dekCache.Keys) <= dekCache.Keys
      ensures old(pauses) == [] ==> pauses == [] && now == old(now)
      ensures EntryFor(kms.p, kms.master, system, kms.rows, tenant) != None && old(pauses) == [] && ttl > 0 ==>
                dekCache[tenant].expiry > now
      ensures now >= old(now) && OthersAlone(old(dekCache), old(sealedCache), {tenant, system})
      ensures Renewed(Look(old(dekCache), tenant), Look(dekCache, tenant), old(now), now, ttl)
      ensures IsSealed(old(kms.rows), tenant) ==>
                KeyAfter(Look(old(dekCache), tenant), Look(old(sealedCache), tenant), Look(sealedCache, tenant),
                         old(now), now, ttl)
      decreases tenant != system, 1
    {
      var cached := LookUpDek(tenant);
      if cached != None {
        if system !in kms.rows { OnlyOwnRows(kms.p, kms.master, system, kms.rows, tenant); }
        return if cached.value.KeyEntry? then Some(cached.value.dek) else None;
      }
      var decided: bool;
      decided, dek := GetOwnDek(tenant);
      if decided { return; }
      if tenant == system {
        StoreSystemKey(newKey, nonce);
        return Some(newKey);
      }
      dek := FallBack(tenant, newKey, nonce);
    }

    /** The system key, cached under this tenant, too. */
    method FallBack(tenant: string, newKey: Bytes, nonce: Bytes) returns (dek: Option<Bytes>)
      requires Coherent() && |nonce| == NONCE_LENGTH && tenant !in kms.rows && tenant != system
      modifies this`dekCache, this`sealedCache, this`now, this`pauses, kms
      ensures Coherent()
      ensures kms.rows == WithSystemKey(kms.p, kms.master, system, old(kms.rows), tenant, newKey, nonce)
      ensures dek == Resolve(kms.p, kms.master, system, kms.rows, tenant)
      ensures dek != None ==> tenant in dekCache
      ensures dek == None ==> EntryFor(kms.p, kms.master, system, kms.rows, tenant) == None
      ensures old(dekCache.Keys) <= dekCache.Keys
      ensures old(pauses) == [] ==> pauses == [] && now == old(now)
      ensures old(pauses) == [] && dek != None && ttl > 0 ==> dekCache[tenant].expiry > now
      ensures now >= old(now) && OthersAlone(old(dekCache), old(sealedCache), {tenant, system})
      ensures Renewed(Look(old(dekCache), tenant), Look(dekCache, tenant), old(now), now, ttl)
      decreases true, 0
    {
      dek := GetDek(system, newKey, nonce);
      RowlessEntry(kms.p, kms.master, system, kms.rows, tenant);
      if dek != None {
        CacheDek(tenant, KeyEntry(dek.value));
      }
    }

    /** `get_tenant_mode`; None stands for the answer "none". */
    method GetTenantMode(tenant: string) returns (mode: Option<Mode>)
      requires Coherent()
      modifies this`modeCache, this`now, this`pauses
      ensures Coherent() && now >= old(now)
      ensures mode == if tenant == "" then None else Some(ModeOf(kms.rows, tenant))
      ensures Renewed(Look(old(modeCache), tenant), Look(modeCache, tenant), old(now), now, ttl)
      ensures forall t :: t != tenant ==> Look(modeCache, t) == Look(old(modeCache), t)
    {
      if tenant == "" { return None; }
      if tenant in modeCache {
        var t := ReadClock();
        if modeCache[tenant].expiry > t { return Some(modeCache[tenant].value); }
      }
      var stored := kms.QueryMode(tenant);
      mode := if stored == None then Some(Platform) else stored;
      var t := ReadClock();
      modeCache := modeCache[tenant := Cached(mode.value, t + ttl)];
    }

    method Forget(tenant: string)
      modifies this`dekCache, this`modeCache
      ensures dekCache == old(dekCache) - {tenant} && modeCache == old(modeCache) - {tenant}
    {
      dekCache, modeCache := dekCache - {tenant}, modeCache - {tenant};
    }

    /** What has just been changed for one tenant leaves right what lives later, or not. */
    twostate lemma Changed(tenant: string)
      requires old(Coherent())
      requires forall t :: t != tenant ==> AgreeOn(old(kms.rows), kms.rows, t)
      requires forall t :: t != tenant ==>
                 && Look(dekCache, t) == Look(old(dekCache), t) && Look(modeCache, t) == Look(old(modeCache), t)
                 && Look(sealedCache, t) == Look(old(sealedCache), t)
      ensures forall later :: old(since) <= later ==>
                (CoherentSince(later) <==>
                 && TenantRight(kms.p, kms.master, system, kms.rows, dekCache, modeCache, sealedCache, tenant, later)
                 && (tenant == system ==>
                       RowlessHold(old(dekCache), old(kms.rows), system,
                                   Resolve(kms.p, kms.master, system, kms.rows, system), later)))
    {
      ghost var deks, modes, sealeds, rows, from := old(dekCache), old(modeCache), old(sealedCache), old(kms.rows),
                                                    old(since);
      forall later | from <= later
        ensures CachesRight(kms.p, kms.master, system, kms.rows, dekCache, modeCache, sealedCache, later) <==>
                && TenantRight(kms.p, kms.master, system, kms.rows, dekCache, modeCache, sealedCache, tenant, later)
                && (tenant == system ==>
                      RowlessHold(deks, rows, system, Resolve(kms.p, kms.master, system, kms.rows, system), later))
      {
        ChangeKeepsRight(kms.p, kms.master, system, rows, kms.rows, deks, modes, sealeds,
                         dekCache, modeCache, sealedCache, tenant, from, later);
      }
    }

    method Disable(tenant: string)
      requires Coherent()
      modifies this`dekCache, this`modeCache, kms
      ensures kms.rows == DisabledRows(old(kms.rows), tenant) && dekCache == old(dekCache) - {tenant}
      ensures forall later :: since <= later ==>
                (CoherentSince(later) <==>
                 (tenant == system ==> RowlessHold(old(dekCache), old(kms.rows), system, None, later)))
    {
      kms.SetDisabled(tenant);
      Forget(tenant);
      Changed(tenant);
    }

    /** Remove any row, so that the system key applies. */
    method UseSystemKey(tenant: string)
      requires Coherent()
      modifies this`dekCache, this`modeCache, kms
      ensures kms.rows == old(kms.rows) - {tenant} && dekCache == old(dekCache) - {tenant}
      ensures forall later :: since <= later ==>
                (CoherentSince(later) <==>
                 (tenant == system ==> RowlessHold(old(dekCache), old(kms.rows), system, None, later)))
    {
      kms.RemoveKey(tenant);
      Forget(tenant);
      Changed(tenant);
    }

    /** The two cache entries of a tenant's own key, each with its own clock reading. */
    method CacheOwnKey(tenant: string, mode: Mode, key: Bytes)
      modifies this`dekCache, this`modeCache, this`now, this`pauses
      ensures exists e :: e >= old(now) + ttl && dekCache == old(dekCache)[tenant := Cached(KeyEntry(key), e)]
      ensures exists e :: modeCache == old(modeCache)[tenant := Cached(mode, e)]
      ensures now >= old(now) && (old(pauses) == [] ==> pauses == [] && now == old(now))
    {
      var t := ReadClock();
      dekCache := dekCache[tenant := Cached(KeyEntry(key), t + ttl)];
      assert t + ttl >= old(now) + ttl;
      t := ReadClock();
      modeCache := modeCache[tenant := Cached(mode, t + ttl)];
    }

    method UseOwnKey(tenant: string, mode: Mode, newKey: Bytes, nonce: Bytes)
      requires Coherent() && |nonce| == NONCE_LENGTH
      modifies this`dekCache, this`modeCache, this`now, this`pauses, kms
      ensures kms.rows == old(kms.rows)[tenant := KeyRow(Wrap(kms.p, kms.master, tenant, nonce, newKey), Active, mode)]
      ensures forall later :: since <= later ==>
                (CoherentSince(later) <==>
                 && (mode == Sealed ==> OwnKeyGone(dekCache, sealedCache, tenant, kms.rows[tenant].blob, later))
                 && (tenant == system ==>
                       RowlessHold(old(dekCache), old(kms.rows), system,
                                   if mode == Sealed then None else Some(newKey), later)))
      ensures exists e :: e >= old(now) + ttl && dekCache == old(dekCache)[tenant := Cached(KeyEntry(newKey), e)]
      ensures now >= old(now) && (old(pauses) == [] ==> pauses == [] && now == old(now))
    {
      OwnKeyEntry(kms.p, kms.master, system, kms.rows, tenant, mode, newKey, nonce);
      kms.WrapAndStoreDek(tenant, newKey, mode, nonce);
      CacheOwnKey(tenant, mode, newKey);
      ghost var blob := Wrap(kms.p, kms.master, tenant, nonce, newKey);
      assert kms.rows[tenant] == KeyRow(blob, Active, mode);
      forall later
        ensures TenantRight(kms.p, kms.master, system, kms.rows, dekCache, modeCache, sealedCache, tenant, later) <==>
                (mode == Sealed ==> OwnKeyGone(dekCache, sealedCache, tenant, blob, later))
        ensures tenant == system ==>
                  Resolve(kms.p, kms.master, system, kms.rows, system) ==
                  if mode == Sealed then None else Some(newKey)
      {
        OwnKeyRight(kms.p, kms.master, system, kms.rows, dekCache, modeCache, sealedCache, tenant, mode, newKey, blob,
                    later);
      }
      Changed(tenant);
    }

    /** `configure_tenant`.  What lives in the caches at some later time is right exactly
        unless an own key that lives then is stored under sealed mode, or the system tenant
        changes while some tenant that is cached then depends on the system key and does not
        hold the new one.  With -1 for the time, this is so for everything in the caches. */
    method ConfigureTenant(tenant: string, enabled: bool, ownKey: bool, mode: Mode, newKey: Bytes, nonce: Bytes)
      requires Coherent() && |nonce| == NONCE_LENGTH
      modifies this`dekCache, this`modeCache, this`now, this`pauses, kms
      ensures kms.rows == Configured(kms.p, kms.master, old(kms.rows), tenant, enabled, ownKey, mode, newKey, nonce)
      ensures forall later :: since <= later ==>
                (CoherentSince(later) <==>
                 && (enabled && ownKey && mode == Sealed ==>
                       OwnKeyGone(dekCache, sealedCache, tenant, kms.rows[tenant].blob, later))
                 && (tenant == system ==>
                       RowlessHold(old(dekCache), old(kms.rows), system,
                                   if enabled && ownKey && mode != Sealed then Some(newKey) else None, later)))
      ensures enabled && ownKey ==>
                exists e :: e >= old(now) + ttl && dekCache == old(dekCache)[tenant := Cached(KeyEntry(newKey), e)]
      ensures !(enabled && ownKey) ==> dekCache == old(dekCache) - {tenant}
      ensures now >= old(now) && (old(pauses) == [] ==> pauses == [] && now == old(now))
    {
      if !enabled {
        Disable(tenant);
      } else if ownKey {
        UseOwnKey(tenant, mode, newKey, nonce);
      } else {
        UseSystemKey(tenant);
      }
    }

    /** The three cache entries of a sealed tenant, each with its own clock reading. */
    method CacheSealed(tenant: string, pem: Bytes)
      modifies this`dekCache, this`modeCache, this`sealedCache, this`now, this`pauses
      ensures now >= old(now) && tenant in dekCache && tenant in modeCache && tenant in sealedCache
      ensures dekCache[tenant].value == SealedMark && modeCache[tenant].value == Sealed &&
              sealedCache[tenant].value == pem
      ensures forall t :: t != tenant ==>
                && Look(dekCache, t) == Look(old(dekCache), t) && Look(modeCache, t) == Look(old(modeCache), t)
                && Look(sealedCache, t) == Look(old(sealedCache), t)
      ensures old(now) + ttl <= sealedCache[tenant].expiry <= dekCache[tenant].expiry <= modeCache[tenant].expiry <=
              now + ttl
      ensures |old(pauses)| >= 3 ==>
                var p := old(pauses);
                && CachedSealed(old(sealedCache), old(dekCache), old(modeCache), tenant, pem,
                                old(now) + p[0], old(now) + p[0] + p[1], old(now) + p[0] + p[1] + p[2])
                && now == old(now) + p[0] + p[1] + p[2] && pauses == p[3..]
    {
      var t1 := ReadClock();
      sealedCache := sealedCache[tenant := Cached(pem, t1 + ttl)];
      var t2 := ReadClock();
      dekCache := dekCache[tenant := Cached(SealedMark, t2 + ttl)];
      var t3 := ReadClock();
      modeCache := modeCache[tenant := Cached(Sealed, t3 + ttl)];
      assert CachedSealed(old(sealedCache), old(dekCache), old(modeCache), tenant, pem, t1, t2, t3);
    }

    ghost predicate CachedSealed(sealeds: KeyCache, deks: DekCache,
                                 modes: ModeCache, tenant: string, pem: Bytes, t1: nat, t2: nat, t3: nat)
      reads this`dekCache, this`modeCache, this`sealedCache
    {
      && sealedCache == sealeds[tenant := Cached(pem, t1 + ttl)]
      && dekCache == deks[tenant := Cached(SealedMark, t2 + ttl)]
      && modeCache == modes[tenant := Cached(Sealed, t3 + ttl)]
    }

    /** `configure_tenant_sealed`, with the tenant's own public key or a generated one. */
    method ConfigureTenantSealed(tenant: string, pem: Bytes)
      requires Coherent()
      modifies this`dekCache, this`modeCache, this`sealedCache, this`now, this`pauses, kms
      ensures kms.rows == old(kms.rows)[tenant := KeyRow(pem, Active, Sealed)] && now >= old(now)
      ensures forall later :: since <= later ==>
                (CoherentSince(later) <==>
                 (tenant == system ==> RowlessHold(old(dekCache), old(kms.rows), system, None, later)))
      ensures |old(pauses)| >= 3 ==>
                var p := old(pauses);
                && CachedSealed(old(sealedCache), old(dekCache), old(modeCache), tenant, pem,
                                old(now) + p[0], old(now) + p[0] + p[1], old(now) + p[0] + p[1] + p[2])
                && now == old(now) + p[0] + p[1] + p[2] && pauses == p[3..]
    {
      kms.StoreSealedKey(tenant, pem);
      CacheSealed(tenant, pem);
      SealedAlwaysRight(kms.p, kms.master, system, kms.rows, dekCache, modeCache, sealedCache, tenant, pem);
      Changed(tenant);
    }
  }
}
