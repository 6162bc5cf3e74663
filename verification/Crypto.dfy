/** The cryptographic and encoding primitives, as functions with inverse laws.

    Randomness is an input of each call: nonces, keys and the padding of RSA-OAEP. */
module Crypto {
  import opened Options

  type Byte = x: int | 0 <= x < 256
  type Bytes = seq<Byte>

  const NONCE_LENGTH := 12

  type Nonce = b: Bytes | |b| == NONCE_LENGTH witness [0, 0, 0, 0, 0, 0, 0, 0, 0, 0, 0, 0]

  /** A generated 256-bit key. */
  type Dek = b: Bytes | |b| == 32
    witness [0, 0, 0, 0, 0, 0, 0, 0, 0, 0, 0, 0, 0, 0, 0, 0, 0, 0, 0, 0, 0, 0, 0, 0, 0, 0, 0, 0, 0, 0, 0, 0]

  datatype Primitives = Primitives(
    seal: (Bytes, Bytes, Bytes, Bytes) -> Bytes,           // key, nonce, plaintext, associated data
    open: (Bytes, Bytes, Bytes, Bytes) -> Option<Bytes>,   // key, nonce, ciphertext, associated data
    rsaEncrypt: (Bytes, Bytes, Bytes) -> Bytes,            // public key, padding, plaintext
    rsaDecrypt: (Bytes, Bytes) -> Option<Bytes>,           // private key, ciphertext
    publicOf: Bytes -> Bytes,                              // the public key of a private one
    sha256: Bytes -> Bytes,
    utf8: string -> Bytes,
    fromUtf8: Bytes -> Option<string>,
    base64: Bytes -> string,
    fromBase64: string -> Option<Bytes>)

  /** What is sealed opens with the associated data that it was sealed with, and with no
      other.  RSA-OAEP takes short messages only; here it wraps keys. */
  ghost predicate Lawful(p: Primitives) {
    && (forall k, n, m, a :: p.open(k, n, p.seal(k, n, m, a), a) == Some(m))
    && (forall k, n, m, a, b :: a != b ==> p.open(k, n, p.seal(k, n, m, a), b) == None)
    && (forall k, r, m: Dek :: p.rsaDecrypt(k, p.rsaEncrypt(p.publicOf(k), r, m)) == Some(m))
    && (forall b :: |p.sha256(b)| == 32)
    && (forall s :: p.fromUtf8(p.utf8(s)) == Some(s))
    && (forall b :: p.fromBase64(p.base64(b)) == Some(b))
  }
}
