/** Encrypted values belong to their row: moved to another one they are not opened. */
module Binding {
  import opened Options
  import opened Crypto
  import opened KeyTable
  import opened Encryption
  import opened EncryptionRuns
  import opened UpsertSql
  import opened FieldCrypto
  import opened Repository
  import opened RoundTrip

  // ----- What the associated data tell apart

  lemma TextsApart(p: Primitives, s: string, t: string)
    requires Lawful(p) && p.utf8(s) == p.utf8(t)
    ensures s == t
  {
    assert p.fromUtf8(p.utf8(s)) == Some(s) && p.fromUtf8(p.utf8(t)) == Some(t);
  }

  /** The rows of one tenant. */
  lemma RowsApart(p: Primitives, tenant: string, id: string, other: string)
    requires Lawful(p) && Aad(p, tenant, id) == Aad(p, tenant, other)
    ensures id == other
  {
    var s, t := tenant + ":" + id, tenant + ":" + other;
    TextsApart(p, s, t);
    assert id == s[|tenant| + 1..] && other == t[|tenant| + 1..];
  }

  /** Where the first colon is. */
  function Colon(s: string): nat {
    if s == "" || s[0] == ':' then 0 else 1 + Colon(s[1..])
  }

  lemma {:induction false} ColonAfter(tenant: string, id: string)
    requires ':' !in tenant
    ensures Colon(tenant + ":" + id) == |tenant|
  {
    if tenant != "" {
      assert (tenant + ":" + id)[1..] == tenant[1..] + ":" + id;
      ColonAfter(tenant[1..], id);
    }
  }

  /** The tenants, if their names have no colon. */
  lemma TenantsApart(p: Primitives, tenant: string, id: string, other: string, otherId: string)
    requires Lawful(p) && ':' !in tenant && ':' !in other && Aad(p, tenant, id) == Aad(p, other, otherId)
    ensures tenant == other
  {
    var s, t := tenant + ":" + id, other + ":" + otherId;
    TextsApart(p, s, t);
    ColonAfter(tenant, id);
    ColonAfter(other, otherId);
    assert tenant == s[..|tenant|] && other == t[..|other|];
  }

  /** With colons in their names two tenants can share the data of two rows. */
  lemma ColonsCollide(p: Primitives, tenant: string, middle: string, id: string)
    ensures Aad(p, tenant, middle + ":" + id) == Aad(p, tenant + ":" + middle, id)
  {
    assert tenant + ":" + (middle + ":" + id) == tenant + ":" + middle + ":" + id;
  }

  /** Another row of the tenant, or a row of another one without a colon in either name. */
  predicate OtherRow(tenant: string, id: string, from: string, fromId: string) {
    (tenant == from && id != fromId) || (tenant != from && ':' !in tenant && ':' !in from)
  }

  lemma OtherRowsApart(p: Primitives, tenant: string, id: string, from: string, fromId: string)
    requires Lawful(p) && OtherRow(tenant, id, from, fromId)
    ensures Aad(p, tenant, id) != Aad(p, from, fromId)
  {
    if Aad(p, tenant, id) == Aad(p, from, fromId) {
      if tenant == from { RowsApart(p, tenant, id, fromId); } else { TenantsApart(p, tenant, id, from, fromId); }
    }
  }

  // ----- Values

  lemma Parts(nonce: Bytes, ciphertext: Bytes)
    requires |nonce| == NONCE_LENGTH
    ensures var raw := nonce + ciphertext;
            Slice(raw, 0, NONCE_LENGTH) == nonce &&
            Slice(raw, NONCE_LENGTH, NONCE_LENGTH + |raw|) == ciphertext
  {
    var raw := nonce + ciphertext;
    assert raw == [] + nonce + ciphertext == nonce + ciphertext + [];
    SliceOf([], nonce, ciphertext, NONCE_LENGTH);
    SliceOf(nonce, ciphertext, [], |raw|);
  }

  /** Under other associated data a value is left as it is. */
  lemma MovedValueStays(p: Primitives, dek: Bytes, nonce: Bytes, aad: Bytes, other: Bytes, text: string)
    requires Lawful(p) && |nonce| == NONCE_LENGTH && aad != other
    ensures var value := EncryptValue(p, dek, nonce, aad, text);
            DecryptValue(p, dek, other, value) == value
  {
    var ciphertext := p.seal(dek, nonce, p.utf8(text), aad);
    var raw := nonce + ciphertext;
    Parts(nonce, ciphertext);
    assert p.fromBase64(p.base64(raw)) == Some(raw);
    assert p.open(dek, nonce, ciphertext, other) == None;
  }

  /** Two rows never have the same ciphertext, not even of equal texts in a deterministic field. */
  lemma CiphertextsApart(p: Primitives, dek: Bytes, nonce: Bytes, otherNonce: Bytes, aad: Bytes, other: Bytes,
                         text: string, otherText: string)
    requires Lawful(p) && |nonce| == NONCE_LENGTH && |otherNonce| == NONCE_LENGTH && aad != other
    ensures EncryptValue(p, dek, nonce, aad, text) != EncryptValue(p, dek, otherNonce, other, otherText)
  {
    if EncryptValue(p, dek, nonce, aad, text) == EncryptValue(p, dek, otherNonce, other, otherText) {
      SameCiphertext(p, dek, nonce, otherNonce, aad, other, text, otherText);
    }
  }

  lemma SameCiphertext(p: Primitives, dek: Bytes, nonce: Bytes, otherNonce: Bytes, aad: Bytes, other: Bytes,
                       text: string, otherText: string)
    requires Lawful(p) && |nonce| == NONCE_LENGTH && |otherNonce| == NONCE_LENGTH
    requires EncryptValue(p, dek, nonce, aad, text) == EncryptValue(p, dek, otherNonce, other, otherText)
    ensures aad == other
  {
    var a, b := p.seal(dek, nonce, p.utf8(text), aad), p.seal(dek, otherNonce, p.utf8(otherText), other);
    assert p.fromBase64(p.base64(nonce + a)) == Some(nonce + a);
    assert p.fromBase64(p.base64(otherNonce + b)) == Some(otherNonce + b);
    Parts(nonce, a);
    Parts(otherNonce, b);
    assert p.open(dek, nonce, a, aad).Some? && (aad != other ==> p.open(dek, nonce, b, aad) == None);
  }

  /** The nonce of a deterministic field changes with the text, unless the digests of these
      two inputs agree where they are cut off. */
  lemma NoncesApart(p: Primitives, f: Field, dek: Bytes, aad: Bytes, text: Bytes, other: Bytes, r: Nonce, s: Nonce)
    requires f.deterministic && NonceFor(p, f, dek, text, aad, r) == NonceFor(p, f, dek, other, aad, s)
    requires Slice(p.sha256(dek + text + aad), 0, NONCE_LENGTH) ==
             Slice(p.sha256(dek + other + aad), 0, NONCE_LENGTH) ==>
               dek + text + aad == dek + other + aad
    ensures text == other
  {
    var x, y := dek + text + aad, dek + other + aad;
    assert |text| == |other| && text == x[|dek|..|dek| + |text|] && other == y[|dek|..|dek| + |other|];
  }

  /** A field that is not deterministic shows a new ciphertext with each new nonce, so that
      equal texts cannot be told from it. */
  lemma RandomFieldsVary(p: Primitives, f: Field, dek: Bytes, aad: Bytes, text: string, r: Nonce, s: Nonce)
    requires Lawful(p) && !f.deterministic && FieldValue(p, f, dek, aad, text, r) == FieldValue(p, f, dek, aad, text, s)
    ensures r == s
  {
    var a, b := r + p.seal(dek, r, p.utf8(text), aad), s + p.seal(dek, s, p.utf8(text), aad);
    assert p.fromBase64(p.base64(a)) == Some(a) && p.fromBase64(p.base64(b)) == Some(b);
    assert r == a[..NONCE_LENGTH] && s == b[..NONCE_LENGTH];
  }

  /** The same for sealed values, even for the owner of the private key. */
  lemma MovedSealedStays(p: Primitives, privateKey: Bytes, e: Ephemeral, aad: Bytes, other: Bytes, text: string)
    requires Lawful(p) && |Wrapped(p, p.publicOf(privateKey), e)| < 0x1_0000 && aad != other
    ensures var value := SealValue(p, p.publicOf(privateKey), e, aad, text);
            OpenSealedValue(p, privateKey, other, value) == value
  {
    var wrapped, ciphertext := Wrapped(p, p.publicOf(privateKey), e), p.seal(e.dek, e.nonce, p.utf8(text), aad);
    var raw := Pack(wrapped, e.nonce, ciphertext);
    UnpackUndoesPack(wrapped, e.nonce, ciphertext);
    assert p.fromBase64(p.base64(raw)) == Some(raw);
    assert p.rsaDecrypt(privateKey, wrapped) == Some(e.dek);
    assert p.open(e.dek, e.nonce, ciphertext, other) == None;
  }

  // ----- Rows

  /** Rows with the same text in a field store different ciphertexts. */
  lemma StoredRowsDiffer(s: Setting, fields: seq<Field>, rows: Rows, e: Entity, stored: Row, dek: Bytes, live: bool,
                         e': Entity, stored': Row, live': bool, f: Field)
    requires Lawful(s.p) && StoredAs(s, fields, rows, e, Some(KeyEntry(dek)), live, stored)
    requires StoredAs(s, fields, rows, e', Some(KeyEntry(dek)), live', stored')
    requires OtherRow(TenantOf(e.data), e.id, TenantOf(e'.data), e'.id) && f in fields && f.name != LEVEL
    requires f.name in e.data && f.name !in e.unset && f.name in e'.data && f.name !in e'.unset
    ensures f.name in stored && f.name in stored' && stored[f.name] != stored'[f.name]
  {
    var p, aad, aad' := s.p, Aad(s.p, TenantOf(e.data), e.id), Aad(s.p, TenantOf(e'.data), e'.id);
    OtherRowsApart(p, TenantOf(e.data), e.id, TenantOf(e'.data), e'.id);
    var r: Nonce :| stored[f.name] == FieldValue(p, f, dek, aad, e.data[f.name], r);
    var r': Nonce :| stored'[f.name] == FieldValue(p, f, dek, aad', e'.data[f.name], r');
    CiphertextsApart(p, dek, NonceFor(p, f, dek, p.utf8(e.data[f.name]), aad, r),
                     NonceFor(p, f, dek, p.utf8(e'.data[f.name]), aad', r'), aad, aad', e.data[f.name],
                     e'.data[f.name]);
  }

  /** A value that was encrypted for another row, read through `get_for_tenant`: it comes
      back as it is stored. */
  method ReadMovedField(repo: Repository, id: string, tenant: string, f: Field, dek: Bytes, from: string,
                        fromId: string,
                        text: string, r: Nonce, newKey: Bytes, nonce: Bytes)
    returns (row: Option<Row>)
    requires repo.Valid() && |nonce| == NONCE_LENGTH && f in repo.fields && OtherRow(tenant, id, from, fromId)
    requires id in repo.table && "deleted_at" !in repo.table[id] && f.name in repo.table[id]
    requires LEVEL in repo.table[id] && repo.table[id][LEVEL] == "platform"
    requires tenant != "" && repo.Entry(tenant) == Some(KeyEntry(dek))
    requires repo.table[id][f.name] == FieldValue(repo.svc.kms.p, f, dek, Aad(repo.svc.kms.p, from, fromId), text, r)
    modifies repo.svc, repo.svc.kms
    ensures row.Some? && f.name in row.value && row.value[f.name] == repo.table[id][f.name]
  {
    ghost var p, before := repo.svc.kms.p, repo.svc.kms.rows;
    row := repo.GetForTenant(id, tenant, newKey, nonce);
    KeyStays(repo.This(), before, repo.svc.kms.rows, tenant);
    OtherRowsApart(p, tenant, id, from, fromId);
    MovedValueStays(p, dek, NonceFor(p, f, dek, p.utf8(text), Aad(p, from, fromId), r), Aad(p, from, fromId),
                    Aad(p, tenant, id), text);
    assert f.name in Names(repo.fields);
  }

  lemma KeyStays(s: Setting, rows: Rows, after: Rows, tenant: string)
    requires OnlySystemKeyMade(rows, after, s.system) && EntryFor(s.p, s.master, s.system, rows, tenant).Some?
    ensures EntryFor(s.p, s.master, s.system, after, tenant) == EntryFor(s.p, s.master, s.system, rows, tenant)
  {
    if s.system !in rows { OnlyOwnRows(s.p, s.master, s.system, rows, tenant); }
    RowsDecide(s.p, s.master, s.system, rows, after, tenant);
  }

  /** A value that was sealed for another row, opened by the owner of the private key. */
  method OpenMovedField(p: Primitives, fields: seq<Field>, row: Row, privateKey: Bytes, tenant: string, id: string,
                        f: Field, e: Ephemeral, from: string, fromId: string, text: string)
    returns (plain: Row)
    requires Lawful(p) && DistinctNames(fields) && f in fields && f.name in row && OtherRow(tenant, id, from, fromId)
    requires |Wrapped(p, p.publicOf(privateKey), e)| < 0x1_0000
    requires row[f.name] == SealValue(p, p.publicOf(privateKey), e, Aad(p, from, fromId), text)
    ensures f.name in plain && plain[f.name] == row[f.name]
  {
    plain := DecryptSealed(p, fields, row, privateKey, Aad(p, tenant, id));
    OtherRowsApart(p, tenant, id, from, fromId);
    MovedSealedStays(p, privateKey, e, Aad(p, from, fromId), Aad(p, tenant, id), text);
    assert f.name in Names(fields);
  }
}
