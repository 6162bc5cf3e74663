/** Encrypting and decrypting single fields, and the packing of sealed values. */
module FieldCrypto {
  import opened Options
  import opened Crypto
  import opened UpsertSql

  /** An encrypted field of a model, in declaration order. */
  datatype Field = Field(name: string, deterministic: bool)

  ghost predicate DistinctNames(fields: seq<Field>) {
    forall i, j :: 0 <= i < j < |fields| ==> fields[i].name != fields[j].name
  }

  function Names(fields: seq<Field>): set<string> {
    set f | f in fields :: f.name
  }

  /** `raw[i:j]`, which never fails. */
  function Slice(raw: Bytes, i: nat, j: nat): Bytes
    requires i <= j
  {
    var n := |raw|;
    raw[if i < n then i else n..if j < n then j else n]
  }

  // ----- Fields under a tenant's key

  /** The nonce is random, or derived from key and content. */
  function NonceFor(p: Primitives, f: Field, dek: Bytes, plain: Bytes, aad: Bytes, random: Nonce): (nonce: Bytes)
    ensures Lawful(p) ==> |nonce| == NONCE_LENGTH
  {
    if f.deterministic then Slice(p.sha256(dek + plain + aad), 0, NONCE_LENGTH) else random
  }

  function EncryptValue(p: Primitives, dek: Bytes, nonce: Bytes, aad: Bytes, text: string): string {
    p.base64(nonce + p.seal(dek, nonce, p.utf8(text), aad))
  }

  /** What cannot be decoded or opened is returned as it is. */
  function DecryptValue(p: Primitives, dek: Bytes, aad: Bytes, value: string): string {
    match p.fromBase64(value)
    case None => value
    case Some(raw) =>
      match p.open(dek, Slice(raw, 0, NONCE_LENGTH), Slice(raw, NONCE_LENGTH, NONCE_LENGTH + |raw|), aad)
      case None => value
      case Some(plain) =>
        match p.fromUtf8(plain)
        case None => value
        case Some(text) => text
  }

  lemma DecryptUndoesEncrypt(p: Primitives, dek: Bytes, nonce: Bytes, aad: Bytes, text: string)
    requires Lawful(p) && |nonce| == NONCE_LENGTH
    ensures DecryptValue(p, dek, aad, EncryptValue(p, dek, nonce, aad, text)) == text
  {
    var ciphertext := p.seal(dek, nonce, p.utf8(text), aad);
    var raw := nonce + ciphertext;
    assert p.fromBase64(p.base64(raw)) == Some(raw);
    assert Slice(raw, 0, NONCE_LENGTH) == nonce;
    assert Slice(raw, NONCE_LENGTH, NONCE_LENGTH + |raw|) == ciphertext;
    assert p.open(dek, nonce, p.seal(dek, nonce, p.utf8(text), aad), aad) == Some(p.utf8(text));
    assert p.fromUtf8(p.utf8(text)) == Some(text);
  }

  /** The value of one field under a tenant's key. */
  function FieldValue(p: Primitives, f: Field, dek: Bytes, aad: Bytes, text: string, random: Nonce): string {
    EncryptValue(p, dek, NonceFor(p, f, dek, p.utf8(text), aad, random), aad, text)
  }

  /** Every encrypted field that is present carries the encryption of what it was;
      everything else is as it was. */
  ghost predicate Encrypts(p: Primitives, fields: seq<Field>, dek: Bytes, aad: Bytes, plain: Row, row: Row) {
    && row.Keys == plain.Keys
    && (forall f :: f in fields && f.name in plain ==>
          exists r: Nonce :: row[f.name] == FieldValue(p, f, dek, aad, plain[f.name], r))
    && (forall c :: c in plain && c !in Names(fields) ==> row[c] == plain[c])
  }

  /** The loop of `encrypt_fields`; `random` is what `os.urandom` returns for each field. */
  method EncryptRow(p: Primitives, fields: seq<Field>, plain: Row, dek: Bytes, aad: Bytes, random: string -> Nonce)
    returns (row: Row)
    requires Lawful(p) && DistinctNames(fields)
    ensures Encrypts(p, fields, dek, aad, plain, row)
  {
    row := plain;
    for i := 0 to |fields|
      invariant Encrypts(p, fields[..i], dek, aad, plain, row)
    {
      var f := fields[i];
      assert Names(fields[..i + 1]) == Names(fields[..i]) + {f.name};
      assert f.name !in Names(fields[..i]);
      if f.name in row {
        var bytes := p.utf8(row[f.name]);
        var nonce := NonceFor(p, f, dek, bytes, aad, random(f.name));
        assert row[f.name] == plain[f.name];
        row := row[f.name := p.base64(nonce + p.seal(dek, nonce, bytes, aad))];
        assert row[f.name] == FieldValue(p, f, dek, aad, plain[f.name], random(f.name));
        assert forall g :: g in fields[..i] ==> g.name != f.name;
      }
    }
    assert fields[..|fields|] == fields;
  }

  function DecryptedRow(p: Primitives, fields: seq<Field>, dek: Bytes, aad: Bytes, row: Row): Row {
    map c | c in row :: if c in Names(fields) then DecryptValue(p, dek, aad, row[c]) else row[c]
  }

  lemma NamesMore(fields: seq<Field>, i: nat)
    requires i < |fields| && DistinctNames(fields)
    ensures Names(fields[..i + 1]) == Names(fields[..i]) + {fields[i].name} && fields[i].name !in Names(fields[..i])
  {
    assert fields[..i + 1] == fields[..i] + [fields[i]];
  }

  lemma DecryptedMore(p: Primitives, fields: seq<Field>, i: nat, dek: Bytes, aad: Bytes, row: Row)
    requires i < |fields| && DistinctNames(fields)
    ensures var before, c := DecryptedRow(p, fields[..i], dek, aad, row), fields[i].name;
            DecryptedRow(p, fields[..i + 1], dek, aad, row) ==
            if c in row then before[c := DecryptValue(p, dek, aad, row[c])] else before
    ensures fields[i].name in row ==> DecryptedRow(p, fields[..i], dek, aad, row)[fields[i].name] == row[fields[i].name]
  {
    NamesMore(fields, i);
  }

  /** The loop of `decrypt_fields`. */
  method DecryptRow(p: Primitives, fields: seq<Field>, row: Row, dek: Bytes, aad: Bytes) returns (plain: Row)
    requires DistinctNames(fields)
    ensures plain == DecryptedRow(p, fields, dek, aad, row)
  {
    plain := row;
    for i := 0 to |fields|
      invariant plain == DecryptedRow(p, fields[..i], dek, aad, row)
    {
      var f := fields[i];
      DecryptedMore(p, fields, i, dek, aad, row);
      if f.name in plain {
        plain := plain[f.name := DecryptValue(p, dek, aad, plain[f.name])];
      }
    }
    assert fields[..|fields|] == fields;
  }

  /** Reading back a row that was written under the same key and associated data. */
  lemma DecryptRowUndoesEncryptRow(p: Primitives, fields: seq<Field>, dek: Bytes, aad: Bytes, plain: Row, row: Row)
    requires Lawful(p) && Encrypts(p, fields, dek, aad, plain, row)
    ensures DecryptedRow(p, fields, dek, aad, row) == plain
  {
    forall c | c in row && c in Names(fields) ensures DecryptValue(p, dek, aad, row[c]) == plain[c] {
      var f :| f in fields && f.name == c;
      var r: Nonce :| row[c] == FieldValue(p, f, dek, aad, plain[c], r);
      DecryptUndoesEncrypt(p, dek, NonceFor(p, f, dek, p.utf8(plain[c]), aad, r), aad, plain[c]);
    }
  }

  /** A deterministic field has one encryption per key, associated data and content. */
  lemma DeterministicFieldsRepeat(p: Primitives, fields: seq<Field>, dek: Bytes, aad: Bytes, plain: Row,
                                  row1: Row, row2: Row, f: Field)
    requires Encrypts(p, fields, dek, aad, plain, row1) && Encrypts(p, fields, dek, aad, plain, row2)
    requires f in fields && f.deterministic && f.name in plain
    ensures row1[f.name] == row2[f.name]
  {
    var r1: Nonce :| row1[f.name] == FieldValue(p, f, dek, aad, plain[f.name], r1);
    var r2: Nonce :| row2[f.name] == FieldValue(p, f, dek, aad, plain[f.name], r2);
  }

  // ----- Sealed values: [length of the wrapped key, 2 bytes][wrapped key][nonce][ciphertext]

  function Pack(wrapped: Bytes, nonce: Bytes, ciphertext: Bytes): Bytes
    requires |wrapped| < 0x1_0000
  {
    [|wrapped| / 256, |wrapped| % 256] + wrapped + nonce + ciphertext
  }

  datatype Parts = Parts(wrapped: Bytes, nonce: Bytes, ciphertext: Bytes)

  /** `int.from_bytes(..., "big")`. */
  function BigEndian(b: Bytes): nat {
    if b == [] then 0 else BigEndian(b[..|b| - 1]) * 256 + b[|b| - 1]
  }

  function Unpack(raw: Bytes): Parts {
    var n := BigEndian(Slice(raw, 0, 2));
    Parts(Slice(raw, 2, 2 + n), Slice(raw, 2 + n, 2 + n + NONCE_LENGTH),
          Slice(raw, 2 + n + NONCE_LENGTH, 2 + n + NONCE_LENGTH + |raw|))
  }

  lemma UnpackUndoesPack(wrapped: Bytes, nonce: Bytes, ciphertext: Bytes)
    requires |wrapped| < 0x1_0000 && |nonce| == NONCE_LENGTH
    ensures Unpack(Pack(wrapped, nonce, ciphertext)) == Parts(wrapped, nonce, ciphertext)
  {
    var n, head := |wrapped|, [|wrapped| / 256, |wrapped| % 256];
    TwoBytes(n / 256, n % 256);
    PartsOf(head, wrapped, nonce, ciphertext);
  }

  lemma PartsOf(head: Bytes, wrapped: Bytes, nonce: Bytes, ciphertext: Bytes)
    requires |head| == 2 && |nonce| == NONCE_LENGTH
    ensures var raw, n := head + wrapped + nonce + ciphertext, |wrapped|;
            && Slice(raw, 0, 2) == head
            && Slice(raw, 2, 2 + n) == wrapped
            && Slice(raw, 2 + n, 2 + n + NONCE_LENGTH) == nonce
            && Slice(raw, 2 + n + NONCE_LENGTH, 2 + n + NONCE_LENGTH + |raw|) == ciphertext
  {
    var raw := head + wrapped + nonce + ciphertext;
    assert raw == [] + head + (wrapped + nonce + ciphertext);
    SliceOf([], head, wrapped + nonce + ciphertext, 2);
    assert raw == head + wrapped + (nonce + ciphertext);
    SliceOf(head, wrapped, nonce + ciphertext, |wrapped|);
    SliceOf(head + wrapped, nonce, ciphertext, NONCE_LENGTH);
    assert raw == head + wrapped + nonce + ciphertext + [];
    SliceOf(head + wrapped + nonce, ciphertext, [], |raw|);
  }

  lemma TwoBytes(high: Byte, low: Byte)
    ensures BigEndian([high, low]) == high * 256 + low
  {
    assert [high, low][..1] == [high] && [high][..0] == [];
    assert BigEndian([high]) == high;
  }

  /** A slice that starts where the middle part does, and ends with it or behind the end. */
  lemma SliceOf(before: Bytes, middle: Bytes, after: Bytes, length: nat)
    requires length == |middle| || (after == [] && length >= |middle|)
    ensures Slice(before + middle + after, |before|, |before| + length) == middle
  {
    var raw := before + middle + after;
    assert raw[|before|..|before| + |middle|] == middle;
  }

  /** The randomness of one sealed value. */
  datatype Ephemeral = Ephemeral(dek: Dek, nonce: Nonce, padding: Bytes)

  function Wrapped(p: Primitives, publicKey: Bytes, e: Ephemeral): Bytes {
    p.rsaEncrypt(publicKey, e.padding, e.dek)
  }

  /** A key whose wrapped form fits the two length bytes; longer ones raise. */
  ghost predicate FitsHeader(p: Primitives, publicKey: Bytes) {
    forall e :: |Wrapped(p, publicKey, e)| < 0x1_0000
  }

  function SealValue(p: Primitives, publicKey: Bytes, e: Ephemeral, aad: Bytes, text: string): string
    requires |Wrapped(p, publicKey, e)| < 0x1_0000
  {
    p.base64(Pack(Wrapped(p, publicKey, e), e.nonce, p.seal(e.dek, e.nonce, p.utf8(text), aad)))
  }

  function OpenSealedValue(p: Primitives, privateKey: Bytes, aad: Bytes, value: string): string {
    match p.fromBase64(value)
    case None => value
    case Some(raw) =>
      var parts := Unpack(raw);
      match p.rsaDecrypt(privateKey, parts.wrapped)
      case None => value
      case Some(dek) =>
        match p.open(dek, parts.nonce, parts.ciphertext, aad)
        case None => value
        case Some(plain) =>
          match p.fromUtf8(plain)
          case None => value
          case Some(text) => text
  }

  lemma OpenUndoesSeal(p: Primitives, privateKey: Bytes, e: Ephemeral, aad: Bytes, text: string)
    requires Lawful(p) && |Wrapped(p, p.publicOf(privateKey), e)| < 0x1_0000
    ensures OpenSealedValue(p, privateKey, aad, SealValue(p, p.publicOf(privateKey), e, aad, text)) == text
  {
    var wrapped, ciphertext := Wrapped(p, p.publicOf(privateKey), e), p.seal(e.dek, e.nonce, p.utf8(text), aad);
    var raw := Pack(wrapped, e.nonce, ciphertext);
    UnpackUndoesPack(wrapped, e.nonce, ciphertext);
    assert p.fromBase64(p.base64(raw)) == Some(raw);
    assert p.rsaDecrypt(privateKey, wrapped) == Some(e.dek);
    assert p.open(e.dek, e.nonce, p.seal(e.dek, e.nonce, p.utf8(text), aad), aad) == Some(p.utf8(text));
    assert p.fromUtf8(p.utf8(text)) == Some(text);
  }

  ghost predicate Seals(p: Primitives, fields: seq<Field>, publicKey: Bytes, aad: Bytes, plain: Row, row: Row)
    requires FitsHeader(p, publicKey)
  {
    && row.Keys == plain.Keys
    && forall c :: c in plain ==>
         if c in Names(fields) then
           exists e :: row[c] == SealValue(p, publicKey, e, aad, plain[c])
         else row[c] == plain[c]
  }

  /** The loop of `_encrypt_fields_sealed`. */
  method SealRow(p: Primitives, fields: seq<Field>, plain: Row, publicKey: Bytes, aad: Bytes,
                 random: string -> Ephemeral)
    returns (row: Row)
    requires DistinctNames(fields) && FitsHeader(p, publicKey)
    ensures Seals(p, fields, publicKey, aad, plain, row)
  {
    row := plain;
    for i := 0 to |fields|
      invariant Seals(p, fields[..i], publicKey, aad, plain, row)
    {
      var f := fields[i];
      assert Names(fields[..i + 1]) == Names(fields[..i]) + {f.name};
      assert f.name !in Names(fields[..i]);
      if f.name in row {
        var e := random(f.name);
        assert row[f.name] == plain[f.name];
        row := row[f.name := SealValue(p, publicKey, e, aad, row[f.name])];
        assert row[f.name] == SealValue(p, publicKey, e, aad, plain[f.name]);
      }
    }
    assert fields[..|fields|] == fields;
  }

  function OpenedRow(p: Primitives, fields: seq<Field>, privateKey: Bytes, aad: Bytes, row: Row): Row {
    map c | c in row :: if c in Names(fields) then OpenSealedValue(p, privateKey, aad, row[c]) else row[c]
  }

  lemma OpenedMore(p: Primitives, fields: seq<Field>, i: nat, privateKey: Bytes, aad: Bytes, row: Row)
    requires i < |fields| && DistinctNames(fields)
    ensures var before, c := OpenedRow(p, fields[..i], privateKey, aad, row), fields[i].name;
            OpenedRow(p, fields[..i + 1], privateKey, aad, row) ==
            if c in row then before[c := OpenSealedValue(p, privateKey, aad, row[c])] else before
    ensures var c := fields[i].name;
            c in row ==> OpenedRow(p, fields[..i], privateKey, aad, row)[c] == row[c]
  {
    NamesMore(fields, i);
  }

  /** `decrypt_sealed`. */
  method DecryptSealed(p: Primitives, fields: seq<Field>, row: Row, privateKey: Bytes, aad: Bytes) returns (plain: Row)
    requires DistinctNames(fields)
    ensures plain == OpenedRow(p, fields, privateKey, aad, row)
  {
    plain := row;
    for i := 0 to |fields|
      invariant plain == OpenedRow(p, fields[..i], privateKey, aad, row)
    {
      var f := fields[i];
      OpenedMore(p, fields, i, privateKey, aad, row);
      if f.name in plain {
        plain := plain[f.name := OpenSealedValue(p, privateKey, aad, plain[f.name])];
      }
    }
    assert fields[..|fields|] == fields;
  }

  /** The owner of the private key recovers every sealed field, and the rest is untouched. */
  lemma OpenRowUndoesSealRow(p: Primitives, fields: seq<Field>, privateKey: Bytes, aad: Bytes, plain: Row, row: Row)
    requires Lawful(p) && FitsHeader(p, p.publicOf(privateKey))
    requires Seals(p, fields, p.publicOf(privateKey), aad, plain, row)
    ensures OpenedRow(p, fields, privateKey, aad, row) == plain
  {
    forall c | c in row && c in Names(fields) ensures OpenSealedValue(p, privateKey, aad, row[c]) == plain[c] {
      var e :| row[c] == SealValue(p, p.publicOf(privateKey), e, aad, plain[c]);
      OpenUndoesSeal(p, privateKey, e, aad, plain[c]);
    }
  }
}
