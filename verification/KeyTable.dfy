/** The table of tenant keys and the local key-management service that writes it. */
module KeyTable {
  import opened Options
  import opened Crypto

  datatype Status = Active | Disabled

  datatype Mode = Platform | Client | Sealed

  /** `blob` is a wrapped key, or the public key itself in sealed mode. */
  datatype KeyRow = KeyRow(blob: Bytes, status: Status, mode: Mode)

  type Rows = map<string, KeyRow>

  // ----- What the table says about a tenant, without any cache

  predicate IsDisabled(rows: Rows, tenant: string) {
    tenant in rows && rows[tenant].status == Disabled
  }

  predicate IsActive(rows: Rows, tenant: string) {
    tenant in rows && rows[tenant].status == Active
  }

  predicate IsSealed(rows: Rows, tenant: string) {
    IsActive(rows, tenant) && rows[tenant].mode == Sealed
  }

  /** Disabling keeps the blob and mode of a row that exists. */
  function DisabledRows(rows: Rows, tenant: string): Rows {
    rows[tenant := if tenant in rows then rows[tenant].(status := Disabled) else KeyRow([], Disabled, Platform)]
  }

  /** The key inside a wrapped blob. */
  function Unwrapped(p: Primitives, master: Bytes, tenant: string, blob: Bytes): Option<Bytes> {
    var n := if |blob| < NONCE_LENGTH then |blob| else NONCE_LENGTH;
    p.open(master, blob[..n], blob[n..], p.utf8(tenant))
  }

  function Wrap(p: Primitives, master: Bytes, tenant: string, nonce: Bytes, dek: Bytes): Bytes {
    nonce + p.seal(master, nonce, dek, p.utf8(tenant))
  }

  lemma UnwrapUndoesWrap(p: Primitives, master: Bytes, tenant: string, nonce: Bytes, dek: Bytes)
    requires Lawful(p) && |nonce| == NONCE_LENGTH
    ensures Unwrapped(p, master, tenant, Wrap(p, master, tenant, nonce, dek)) == Some(dek)
  {
    var sealed := p.seal(master, nonce, dek, p.utf8(tenant));
    var blob := nonce + sealed;
    assert blob[..NONCE_LENGTH] == nonce && blob[NONCE_LENGTH..] == sealed;
  }

  /** A wrapped key that is put into another tenant's row does not open there. */
  lemma WrappedKeyIsBound(p: Primitives, master: Bytes, tenant: string, other: string, nonce: Bytes, dek: Bytes)
    requires Lawful(p) && |nonce| == NONCE_LENGTH && tenant != other
    ensures Unwrapped(p, master, other, Wrap(p, master, tenant, nonce, dek)) == None
  {
    var sealed := p.seal(master, nonce, dek, p.utf8(tenant));
    var blob := nonce + sealed;
    assert blob[..NONCE_LENGTH] == nonce && blob[NONCE_LENGTH..] == sealed;
    assert p.fromUtf8(p.utf8(tenant)) == Some(tenant) && p.fromUtf8(p.utf8(other)) == Some(other);
  }

  /** `LocalFileKMS`: every operation is one SQL statement on the table. */
  class LocalFileKMS {
    const p: Primitives
    const master: Bytes
    var rows: Rows

    constructor (p: Primitives, master: Bytes, rows: Rows)
      ensures this.p == p && this.master == master && this.rows == rows
    {
      this.p, this.master, this.rows := p, master, rows;
    }

    method WrapAndStoreDek(tenant: string, dek: Bytes, mode: Mode, nonce: Bytes)
      modifies this
      ensures rows == old(rows)[tenant := KeyRow(Wrap(p, master, tenant, nonce, dek), Active, mode)]
    {
      var wrapped := nonce + p.seal(master, nonce, dek, p.utf8(tenant));
      if tenant in rows {
        rows := rows[tenant := rows[tenant].(blob := wrapped, status := Active, mode := mode)];
      } else {
        rows := rows[tenant := KeyRow(wrapped, Active, mode)];
      }
    }

    method UnwrapDek(tenant: string) returns (dek: Option<Bytes>)
      ensures dek == if IsActive(rows, tenant) then Unwrapped(p, master, tenant, rows[tenant].blob) else None
    {
      if tenant !in rows || rows[tenant].status != Active { return None; }
      dek := Unwrapped(p, master, tenant, rows[tenant].blob);
    }

    method QueryDisabled(tenant: string) returns (disabled: bool)
      ensures disabled == IsDisabled(rows, tenant)
    {
      disabled := tenant in rows && rows[tenant].status == Disabled;
    }

    method SetDisabled(tenant: string)
      modifies this
      ensures rows == DisabledRows(old(rows), tenant) && IsDisabled(rows, tenant)
      ensures tenant in old(rows) ==>
                rows[tenant].blob == old(rows)[tenant].blob && rows[tenant].mode == old(rows)[tenant].mode
    {
      if tenant in rows {
        rows := rows[tenant := rows[tenant].(status := Disabled)];
      } else {
        rows := rows[tenant := KeyRow([], Disabled, Platform)];
      }
    }

    method RemoveKey(tenant: string)
      modifies this
      ensures rows == old(rows) - {tenant}
    {
      rows := rows - {tenant};
    }

    method QueryMode(tenant: string) returns (mode: Option<Mode>)
      ensures mode == if IsActive(rows, tenant) then Some(rows[tenant].mode) else None
    {
      mode := if tenant in rows && rows[tenant].status == Active then Some(rows[tenant].mode) else None;
    }

    method StoreSealedKey(tenant: string, pem: Bytes)
      modifies this
      ensures rows == old(rows)[tenant := KeyRow(pem, Active, Sealed)]
    {
      rows := rows[tenant := KeyRow(pem, Active, Sealed)];
    }

    method QuerySealedKey(tenant: string) returns (pem: Option<Bytes>)
      ensures pem == if IsSealed(rows, tenant) then Some(rows[tenant].blob) else None
    {
      pem := if tenant in rows && rows[tenant].mode == Sealed && rows[tenant].status == Active
             then Some(rows[tenant].blob) else None;
    }
  }
}
