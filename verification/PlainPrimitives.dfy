/** The laws of the cryptographic primitives can be met, by some that hide nothing, and so
    there are repositories and runs as the theorems about them ask for. */
module PlainPrimitives {
  import opened Options
  import opened Crypto
  import opened KeyTable
  import opened Encryption
  import opened EncryptionRuns
  import opened UpsertSql
  import opened FieldCrypto
  import opened Repository
  import opened RoundTrip

  function OfChar(c: char): Bytes {
    [c as int / 0x1_0000, c as int / 0x100 % 0x100, c as int % 0x100]
  }

  /** The number that three bytes write. */
  function CodePoint(high: Byte, middle: Byte, low: Byte): int {
    (high as int) * 0x1_0000 + (middle as int) * 0x100 + low as int
  }

  lemma ThreeBytes(c: char)
    ensures CodePoint(OfChar(c)[0], OfChar(c)[1], OfChar(c)[2]) == c as int
  {
    var n := c as int;
    assert n / 0x1_0000 == n / 0x100 / 0x100 && n == n / 0x100 * 0x100 + n % 0x100;
  }

  function ToBytes(s: string): Bytes {
    if s == "" then [] else OfChar(s[0]) + ToBytes(s[1..])
  }

  function FromBytes(b: Bytes): Option<string> {
    if b == [] then Some("")
    else if |b| < 3 then None
    else
      var n := CodePoint(b[0], b[1], b[2]);
      if n < 0xD800 || 0xE000 <= n < 0x11_0000 then
        match FromBytes(b[3..])
        case None => None
        case Some(rest) => Some([n as char] + rest)
      else None
  }

  lemma {:induction false} TextComesBack(s: string)
    ensures FromBytes(ToBytes(s)) == Some(s)
  {
    if s != "" {
      var b := ToBytes(s);
      ThreeBytes(s[0]);
      assert [b[0], b[1], b[2]] == OfChar(s[0]) && b[3..] == ToBytes(s[1..]);
      TextComesBack(s[1..]);
      assert [s[0]] + s[1..] == s;
    }
  }

  function ToChars(b: Bytes): string {
    seq(|b|, i requires 0 <= i < |b| => b[i] as char)
  }

  function FromChars(s: string): Option<Bytes> {
    if forall i :: 0 <= i < |s| ==> s[i] as int < 256 then
      Some(seq(|s|, i requires 0 <= i < |s| => (if s[i] as int < 256 then s[i] as int else 0) as Byte))
    else None
  }

  lemma CharsComeBack(b: Bytes)
    ensures FromChars(ToChars(b)) == Some(b)
  {
    assert forall i :: 0 <= i < |b| ==> ToChars(b)[i] as int == b[i];
    assert FromChars(ToChars(b)).value == b;
  }

  /** The associated data, so that one can tell where it ends. */
  function Framed(a: Bytes): Bytes {
    if a == [] then [0] else [1, a[0]] + Framed(a[1..])
  }

  lemma {:induction false} FramesTellApart(a: Bytes, b: Bytes, m: Bytes)
    requires Framed(b) <= Framed(a) + m
    ensures a == b
  {
    var f, g := Framed(a) + m, Framed(b);
    assert g[0] == f[0];
    if a != [] && b != [] {
      assert g[1] == f[1] && g[2..] == Framed(b[1..]) && f[2..] == Framed(a[1..]) + m;
      assert g[2..] <= f[2..];
      FramesTellApart(a[1..], b[1..], m);
      assert a == [a[0]] + a[1..] && b == [b[0]] + b[1..];
    }
  }

  function Opened(c: Bytes, a: Bytes): Option<Bytes> {
    if Framed(a) <= c then Some(c[|Framed(a)|..]) else None
  }

  function Plain(): Primitives {
    Primitives((k, n, m, a) => Framed(a) + m, (k, n, c, a) => Opened(c, a), (k, r, m) => m, (k, c) => Some(c), k => k,
               b => seq(32, i => 0), ToBytes, FromBytes, ToChars, FromChars)
  }

  lemma PlainIsLawful()
    ensures Lawful(Plain()) && forall k :: FitsHeader(Plain(), k)
  {
    forall m, a ensures Opened(Framed(a) + m, a) == Some(m) { }
    forall m, a, b | a != b ensures Opened(Framed(a) + m, b) == None {
      if Framed(b) <= Framed(a) + m { FramesTellApart(a, b, m); }
    }
    forall s ensures FromBytes(ToBytes(s)) == Some(s) { TextComesBack(s); }
    forall b ensures FromChars(ToChars(b)) == Some(b) { CharsComeBack(b); }
  }

  // ----- A repository over them

  /** One that is valid, over any table of keys without wrapped ones. */
  method NewRepository(fields: seq<Field>, ttl: nat, pauses: seq<nat>) returns (repo: Repository)
    requires DistinctNames(fields) && TENANT !in Names(fields) && LEVEL !in Names(fields)
    ensures fresh(repo) && fresh(repo.svc) && fresh(repo.svc.kms) && repo.Valid() && repo.fields == fields
    ensures repo.svc.kms.p == Plain() && repo.svc.system == "__system__" && repo.svc.ttl == ttl
    ensures repo.svc.dekCache == map[] && repo.svc.sealedCache == map[] && repo.svc.pauses == pauses
    ensures repo.svc.kms.rows == map[] && repo.table == map[] && repo.defaults == map[]
  {
    PlainIsLawful();
    var kms := new LocalFileKMS(Plain(), [], map[]);
    var svc := new EncryptionService(kms, "__system__", ttl, pauses);
    repo := new Repository(svc, fields, map[], map[]);
  }

  /** A sealed tenant's text becomes what only the private key opens. */
  method SealedTextComesBack(tenant: string, field: string, text: string, privateKey: Bytes, random: Randomness)
    returns (stored: string, plain: string)
    requires tenant != "" && tenant != "__system__" && field !in {TENANT, LEVEL}
    ensures exists x :: stored == SealValue(Plain(), Plain().publicOf(privateKey), x, Aad(Plain(), tenant, "1"), text)
    ensures plain == text
  {
    var fields := [Field(field, false)];
    var repo := NewRepository(fields, 300, [0, 0, 0]);
    repo.svc.ConfigureTenantSealed(tenant, Plain().publicOf(privateKey));
    ghost var live;
    var row;
    row, live := repo.EncryptFields("1", map[TENANT := tenant, field := text], random);
    assert fields[0] in fields && field in Names(fields);
    stored := row[field];
    plain := OpenSealedValue(Plain(), privateKey, Aad(Plain(), tenant, "1"), stored);
    PlainIsLawful();
    ghost var x :| stored == SealValue(Plain(), Plain().publicOf(privateKey), x, Aad(Plain(), tenant, "1"), text);
    OpenUndoesSeal(Plain(), privateKey, x, Aad(Plain(), tenant, "1"), text);
  }

  /** In platform mode a text is read as it was written. */
  method PlatformTextComesBack(tenant: string, field: string, text: string, newKey: Bytes, nonce: Nonce,
                               random: string -> Randomness)
    returns (read: Option<Row>)
    requires tenant != "" && field !in {TENANT, LEVEL, "deleted_at"}
    ensures read.Some? && field in read.value && read.value[field] == text
  {
    var repo := NewRepository([Field(field, false)], 300, []);
    var e := Entity("1", map[TENANT := tenant, field := text], {});
    ghost var q, stamp, rows;
    read, q, stamp, rows := WriteThenRead(repo, e, [], tenant, newKey, nonce, random);
  }

  /** The row of a sealed tenant whose key has expired, in the clear. */
  method ExpiredKeyIsReached(tenant: string, pem: Bytes, row: Row, random: Randomness)
    returns (entry: Option<DekEntry>, stored: Row)
    requires tenant != "" && tenant != "__system__" && TenantOf(row) == tenant
    ensures entry == Some(SealedMark) && stored == row
  {
    PlainIsLawful();
    entry, stored := ExpiredKeyWritesPlain(Plain(), [Field("content", false)], tenant, pem, 300, "1", row, random);
  }
}
