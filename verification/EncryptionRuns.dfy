/** Whole runs of the encryption service against the same runs without any cache. */
module EncryptionRuns {
  import opened Options
  import opened Crypto
  import opened KeyTable
  import opened Encryption

  datatype Call =
    | GetDek(tenant: string, newKey: Bytes, nonce: Bytes)
    | GetMode(tenant: string)
    | Configure(tenant: string, enabled: bool, ownKey: bool, mode: Mode, newKey: Bytes, nonce: Bytes)
    | ConfigureSealed(tenant: string, pem: Bytes)

  datatype Answer = DekIs(dek: Option<Bytes>) | ModeIs(mode: Option<Mode>) | Done

  datatype Setting = Setting(p: Primitives, master: Bytes, system: string)

  /** One call without caches: its answer and the table after it. */
  function Uncached(s: Setting, rows: Rows, c: Call): (Answer, Rows) {
    match c
    case GetDek(t, k, n) =>
      var after := WithSystemKey(s.p, s.master, s.system, rows, t, k, n);
      (DekIs(Resolve(s.p, s.master, s.system, after, t)), after)
    case GetMode(t) => (ModeIs(if t == "" then None else Some(ModeOf(rows, t))), rows)
    case Configure(t, e, o, m, k, n) => (Done, Configured(s.p, s.master, rows, t, e, o, m, k, n))
    case ConfigureSealed(t, pem) => (Done, rows[t := KeyRow(pem, Active, Sealed)])
  }

  function UncachedRun(s: Setting, rows: Rows, calls: seq<Call>): (seq<Answer>, Rows) {
    if calls == [] then ([], rows)
    else
      var (answers, before) := UncachedRun(s, rows, calls[..|calls| - 1]);
      var (answer, after) := Uncached(s, before, calls[|calls| - 1]);
      (answers + [answer], after)
  }

  // ----- What a tenant's configuration means, by the calls alone

  predicate GoodNonce(c: Call) {
    match c
    case GetDek(_, _, n) => |n| == NONCE_LENGTH
    case Configure(_, _, _, _, _, n) => |n| == NONCE_LENGTH
    case _ => true
  }

  /** The last call that configured the tenant. */
  function LastConfiguration(calls: seq<Call>, tenant: string): (c: Option<Call>)
    ensures c.Some? ==> (c.value.Configure? || c.value.ConfigureSealed?) && c.value.tenant == tenant
  {
    if calls == [] then None
    else
      var last := calls[|calls| - 1];
      if (last.Configure? || last.ConfigureSealed?) && last.tenant == tenant then Some(last)
      else LastConfiguration(calls[..|calls| - 1], tenant)
  }

  /** The configuration gives the tenant a row. */
  predicate KeepsRow(c: Call) {
    c.ConfigureSealed? || (c.Configure? && (!c.enabled || c.ownKey))
  }

  /** A disabled tenant has no key, one with an own key has that and its mode, a sealed one
      its public key; anybody else has the system key, in platform mode. */
  ghost predicate MeansConfiguration(s: Setting, rows: Rows, tenant: string, c: Call)
    requires c.Configure? || c.ConfigureSealed?
  {
    var entry := EntryFor(s.p, s.master, s.system, rows, tenant);
    match c
    case Configure(_, enabled, ownKey, mode, key, _) =>
      if !enabled then entry == Some(DisabledMark) && ModeOf(rows, tenant) == Platform
      else if ownKey then
        entry == Some(if mode == Sealed then SealedMark else KeyEntry(key)) && ModeOf(rows, tenant) == mode
      else tenant != s.system ==> HasSystemKey(s, rows, tenant)
    case ConfigureSealed(_, pem) =>
      entry == Some(SealedMark) && ModeOf(rows, tenant) == Sealed && tenant in rows && rows[tenant].blob == pem
  }

  /** The tenant has no row, and the key of the system tenant, if that has one. */
  ghost predicate HasSystemKey(s: Setting, rows: Rows, tenant: string) {
    && tenant !in rows && ModeOf(rows, tenant) == Platform
    && EntryFor(s.p, s.master, s.system, rows, tenant) ==
       match EntryFor(s.p, s.master, s.system, rows, s.system)
       case Some(KeyEntry(key)) => Some(KeyEntry(key))
       case _ => None
  }

  lemma RowlessHasSystemKey(s: Setting, rows: Rows, tenant: string)
    requires tenant !in rows && tenant != s.system
    ensures HasSystemKey(s, rows, tenant)
  {
    RowlessEntry(s.p, s.master, s.system, rows, tenant);
  }

  /** A call leaves a tenant's row alone, unless it configures the tenant or makes the
      system key. */
  lemma OthersKeepRow(s: Setting, rows: Rows, c: Call, tenant: string)
    requires !((c.Configure? || c.ConfigureSealed?) && c.tenant == tenant)
    ensures var after := Uncached(s, rows, c).1;
            && (tenant in rows ==> tenant in after && after[tenant] == rows[tenant])
            && (tenant !in rows && tenant != s.system ==> tenant !in after)
  {
  }

  lemma ConfigurationTakesEffect(s: Setting, rows: Rows, c: Call)
    requires Lawful(s.p) && GoodNonce(c) && (c.Configure? || c.ConfigureSealed?)
    ensures MeansConfiguration(s, Uncached(s, rows, c).1, c.tenant, c)
  {
    if c.Configure? && c.enabled && c.ownKey {
      OwnKeyEntry(s.p, s.master, s.system, rows, c.tenant, c.mode, c.newKey, c.nonce);
    } else if c.Configure? && c.enabled && c.tenant != s.system {
      RowlessHasSystemKey(s, Uncached(s, rows, c).1, c.tenant);
    }
  }

  /** What the row decides stays as long as the row does. */
  lemma ConfigurationLasts(s: Setting, rows: Rows, later: Rows, tenant: string, c: Call)
    requires (c.Configure? || c.ConfigureSealed?) && MeansConfiguration(s, rows, tenant, c)
    requires tenant in rows ==> tenant in later && later[tenant] == rows[tenant]
    requires tenant !in rows && tenant != s.system ==> tenant !in later
    requires KeepsRow(c) ==> tenant in rows
    ensures MeansConfiguration(s, later, tenant, c)
  {
    if tenant in rows {
      RowsDecide(s.p, s.master, s.system, rows, later, tenant);
    } else if tenant != s.system {
      RowlessHasSystemKey(s, later, tenant);
    }
  }

  /** Over any calls: every tenant means what the last call that configured it says. */
  lemma {:induction false} ResolvesAsConfigured(s: Setting, rows: Rows, calls: seq<Call>, tenant: string)
    requires Lawful(s.p) && forall i :: 0 <= i < |calls| ==> GoodNonce(calls[i])
    ensures var after := UncachedRun(s, rows, calls).1;
            match LastConfiguration(calls, tenant)
            case Some(c) => MeansConfiguration(s, after, tenant, c) && (KeepsRow(c) ==> tenant in after)
            case None =>
              && (tenant in rows ==> tenant in after && after[tenant] == rows[tenant])
              && (tenant !in rows && tenant != s.system ==> HasSystemKey(s, after, tenant))
  {
    if calls == [] {
      if tenant !in rows && tenant != s.system { RowlessHasSystemKey(s, rows, tenant); }
    } else {
      var init, last := calls[..|calls| - 1], calls[|calls| - 1];
      ResolvesAsConfigured(s, rows, init, tenant);
      var before := UncachedRun(s, rows, init).1;
      if (last.Configure? || last.ConfigureSealed?) && last.tenant == tenant {
        ConfigurationTakesEffect(s, before, last);
      } else {
        OthersKeepRow(s, before, last, tenant);
        var after := Uncached(s, before, last).1;
        match LastConfiguration(init, tenant) {
          case Some(c) => ConfigurationLasts(s, before, after, tenant, c);
          case None => if tenant !in rows && tenant != s.system { RowlessHasSystemKey(s, after, tenant); }
        }
      }
    }
  }

  /** The system tenant is not reconfigured, an own key is not given sealed mode. */
  predicate Permitted(system: string, c: Call) {
    match c
    case GetDek(_, _, n) => |n| == NONCE_LENGTH
    case GetMode(_) => true
    case Configure(t, e, o, m, _, n) => |n| == NONCE_LENGTH && t != system && !(e && o && m == Sealed)
    case ConfigureSealed(t, _) => t != system
  }

  method Perform(svc: EncryptionService, c: Call) returns (answer: Answer)
    requires svc.Coherent() && Permitted(svc.system, c)
    modifies svc, svc.kms
    ensures svc.Coherent() && svc.since == old(svc.since)
    ensures (answer, svc.kms.rows) == Uncached(Setting(svc.kms.p, svc.kms.master, svc.system), old(svc.kms.rows), c)
  {
    match c {
      case GetDek(t, k, n) =>
        var dek := svc.GetDek(t, k, n);
        return DekIs(dek);
      case GetMode(t) =>
        var mode := svc.GetTenantMode(t);
        return ModeIs(mode);
      case Configure(t, e, o, m, k, n) =>
        svc.ConfigureTenant(t, e, o, m, k, n);
        return Done;
      case ConfigureSealed(t, pem) =>
        svc.ConfigureTenantSealed(t, pem);
        return Done;
    }
  }

  /** Over any run, however the clock advances between its readings and whatever the
      time to live, the caches change no answer. */
  method CachedRun(s: Setting, rows: Rows, ttl: nat, pauses: seq<nat>, calls: seq<Call>)
    returns (answers: seq<Answer>, after: Rows)
    requires Lawful(s.p) && TableValid(s.p, s.master, rows)
    requires forall i :: 0 <= i < |calls| ==> Permitted(s.system, calls[i])
    ensures (answers, after) == UncachedRun(s, rows, calls)
  {
    var kms := new LocalFileKMS(s.p, s.master, rows);
    var svc := new EncryptionService(kms, s.system, ttl, pauses);
    answers := PerformAll(svc, calls);
    after := svc.kms.rows;
  }

  ghost function SettingOf(svc: EncryptionService): Setting {
    Setting(svc.kms.p, svc.kms.master, svc.system)
  }

  /** The same from any state in which what has not expired is right. */
  method PerformAll(svc: EncryptionService, calls: seq<Call>) returns (answers: seq<Answer>)
    requires svc.Coherent() && forall i :: 0 <= i < |calls| ==> Permitted(svc.system, calls[i])
    modifies svc, svc.kms
    ensures (answers, svc.kms.rows) == UncachedRun(SettingOf(svc), old(svc.kms.rows), calls)
  {
    answers := [];
    for i := 0 to |calls|
      invariant svc.Coherent()
      invariant (answers, svc.kms.rows) == UncachedRun(SettingOf(svc), old(svc.kms.rows), calls[..i])
    {
      assert calls[..i + 1][..i] == calls[..i];
      var answer := Perform(svc, calls[i]);
      answers := answers + [answer];
    }
    assert calls[..|calls|] == calls;
  }

  // ----- Which reconfigurations can be noticed

  function KeyOf(entry: DekEntry): Option<Bytes> {
    if entry.KeyEntry? then Some(entry.dek) else None
  }

  /** The system key after its tenant was reconfigured, `made` if one has to be. */
  function SystemKeyAfter(c: Call, made: Bytes): Option<Bytes>
    requires c.Configure?
  {
    if !c.enabled then None
    else if !c.ownKey then Some(made)
    else if c.mode == Sealed then None
    else Some(c.newKey)
  }

  /** The tenant's entry after the call is stale: it is an own key stored under sealed mode,
      or an older system key that has not expired. */
  predicate Stale(system: string, rows: Rows, deks: DekCache, now: nat, c: Call, t: string, made: Bytes)
    requires c.Configure?
  {
    || (t == c.tenant && c.enabled && c.ownKey && c.mode == Sealed)
    || (c.tenant == system && t != system && t !in rows && Lives(deks, t, now) &&
        !HoldsKey(deks[t], SystemKeyAfter(c, made)))
  }

  /** A cached tenant without a row has the system key. */
  lemma RowlessHasKey(s: Setting, rows: Rows, deks: DekCache, modes: ModeCache, sealeds: KeyCache, since: int,
                      t: string)
    requires CachesRight(s.p, s.master, s.system, rows, deks, modes, sealeds, since)
    requires Lives(deks, t, since) && t !in rows && t != s.system
    ensures deks[t].value.KeyEntry?
  {
    RowlessEntry(s.p, s.master, s.system, rows, t);
  }

  /** What the table says to a tenant without a row, after the system was reconfigured. */
  lemma RowlessAnswer(s: Setting, rows: Rows, c: Call, t: string, made: Bytes, nonce: Bytes)
    requires Lawful(s.p) && c.Configure? && c.tenant == s.system && t != s.system && t !in rows
    requires |c.nonce| == NONCE_LENGTH && |nonce| == NONCE_LENGTH
    ensures var after := Configured(s.p, s.master, rows, c.tenant, c.enabled, c.ownKey, c.mode, c.newKey, c.nonce);
            Uncached(s, after, GetDek(t, made, nonce)).0 == DekIs(SystemKeyAfter(c, made))
  {
    var after := Configured(s.p, s.master, rows, c.tenant, c.enabled, c.ownKey, c.mode, c.newKey, c.nonce);
    if c.enabled && c.ownKey {
      OwnKeyEntry(s.p, s.master, s.system, rows, s.system, c.mode, c.newKey, c.nonce);
      assert s.system in after && t !in after;
      assert Resolve(s.p, s.master, s.system, after, s.system) == if c.mode == Sealed then None else Some(c.newKey);
    } else if c.enabled {
      OwnKeyEntry(s.p, s.master, s.system, after, s.system, Platform, made, nonce);
    } else {
      assert IsDisabled(after, s.system) && Resolve(s.p, s.master, s.system, after, s.system) == None;
    }
  }

  /** Right after `configure_tenant` a stale entry answers differently from the table. */
  method StaleEntryAnswers(svc: EncryptionService, c: Call, t: string, made: Bytes, nonce: Bytes)
    returns (cached: Option<DekEntry>)
    requires svc.Coherent() && svc.pauses == [] && svc.ttl > 0
    requires c.Configure? && |c.nonce| == NONCE_LENGTH && |nonce| == NONCE_LENGTH
    requires Stale(svc.system, svc.kms.rows, svc.dekCache, svc.now, c, t, made)
    modifies svc, svc.kms
    ensures cached.Some?
    ensures var rows := Uncached(SettingOf(svc), old(svc.kms.rows), c).1;
            svc.kms.rows == rows &&
            DekIs(KeyOf(cached.value)) != Uncached(SettingOf(svc), rows, GetDek(t, made, nonce)).0
  {
    ghost var rows, deks := svc.kms.rows, svc.dekCache;
    if !(t == c.tenant && c.enabled && c.ownKey && c.mode == Sealed) {
      RowlessHasKey(SettingOf(svc), rows, deks, svc.modeCache, svc.sealedCache, svc.since, t);
      RowlessAnswer(SettingOf(svc), rows, c, t, made, nonce);
    }
    svc.ConfigureTenant(c.tenant, c.enabled, c.ownKey, c.mode, c.newKey, c.nonce);
    cached := svc.LookUpDek(t);
  }

  /** If no entry is stale, whatever system key may be made, the caches change no later
      answer, however the clock goes on. */
  method NoStaleEntry(svc: EncryptionService, c: Call, calls: seq<Call>) returns (answers: seq<Answer>)
    requires svc.Coherent()
    requires c.Configure? && |c.nonce| == NONCE_LENGTH
    requires forall t, made :: !Stale(svc.system, svc.kms.rows, svc.dekCache, svc.now, c, t, made)
    requires forall i :: 0 <= i < |calls| ==> Permitted(svc.system, calls[i])
    modifies svc, svc.kms
    ensures var rows := Uncached(SettingOf(svc), old(svc.kms.rows), c).1;
            (answers, svc.kms.rows) == UncachedRun(SettingOf(svc), rows, calls)
  {
    if c.tenant == svc.system {
      NoneStaleHold(SettingOf(svc), svc.kms.rows, svc.dekCache, svc.modeCache, svc.sealedCache, svc.since, svc.now, c);
    }
    assert !Stale(svc.system, svc.kms.rows, svc.dekCache, svc.now, c, c.tenant, []);
    svc.ConfigureTenant(c.tenant, c.enabled, c.ownKey, c.mode, c.newKey, c.nonce);
    assert svc.CoherentSince(svc.now);
    svc.since := svc.now;
    answers := PerformAll(svc, calls);
  }

  lemma NoneStaleHold(s: Setting, rows: Rows, deks: DekCache, modes: ModeCache, sealeds: KeyCache, since: int,
                      now: nat, c: Call)
    requires CachesRight(s.p, s.master, s.system, rows, deks, modes, sealeds, since) && since <= now
    requires c.Configure? && c.tenant == s.system
    requires forall t, made :: !Stale(s.system, rows, deks, now, c, t, made)
    ensures RowlessHold(deks, rows, s.system,
                        if c.enabled && c.ownKey && c.mode != Sealed then Some(c.newKey) else None, now)
  {
    var key := if c.enabled && c.ownKey && c.mode != Sealed then Some(c.newKey) else None;
    forall t | Lives(deks, t, now) && t != s.system && t !in rows ensures HoldsKey(deks[t], key) {
      RowlessHasKey(s, rows, deks, modes, sealeds, since, t);
      var made := deks[t].value.dek + [0];
      assert !Stale(s.system, rows, deks, now, c, t, made);
      assert |made| != |deks[t].value.dek|;
    }
  }

  // ----- The two exceptions are needed

  /** An own key stored with sealed mode: the cache still hands out the key, the table
      says there is none. */
  method SealedOwnKeyIsStale(s: Setting, tenant: string, newKey: Bytes, nonce: Bytes, ttl: nat)
    returns (cached: Option<DekEntry>, uncached: Option<Bytes>)
    requires Lawful(s.p) && |nonce| == NONCE_LENGTH && ttl > 0
    ensures cached == Some(KeyEntry(newKey)) && uncached == None
  {
    var kms := new LocalFileKMS(s.p, s.master, map[]);
    var svc := new EncryptionService(kms, s.system, ttl, []);
    svc.ConfigureTenant(tenant, true, true, Sealed, newKey, nonce);
    cached := svc.LookUpDek(tenant);
    uncached := Resolve(s.p, s.master, s.system, svc.kms.rows, tenant);
  }

  /** A new system key: tenants that use it keep the old one while their entry lives. */
  method NewSystemKeyIsStale(s: Setting, tenant: string, first: Bytes, second: Bytes, nonce: Bytes, ttl: nat)
    returns (cached: Option<DekEntry>, uncached: Option<Bytes>)
    requires Lawful(s.p) && |nonce| == NONCE_LENGTH && ttl > 0 && tenant != s.system
    ensures cached == Some(KeyEntry(first)) && uncached == Some(second)
  {
    var kms := new LocalFileKMS(s.p, s.master, map[]);
    var svc := new EncryptionService(kms, s.system, ttl, []);
    var dek := svc.GetDek(tenant, first, nonce);
    OwnKeyEntry(s.p, s.master, s.system, map[], s.system, Platform, first, nonce);
    ghost var before := svc.kms.rows;
    svc.ConfigureTenant(s.system, true, true, Platform, second, nonce);
    OwnKeyEntry(s.p, s.master, s.system, before, s.system, Platform, second, nonce);
    cached := svc.LookUpDek(tenant);
    uncached := Resolve(s.p, s.master, s.system, svc.kms.rows, tenant);
  }
}
