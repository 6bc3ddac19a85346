/** AES-256-GCM and HMAC as seen by the code that calls them. */
module Cipher {
  import opened Base

  const TAG_BYTES: nat := 16

  type Key = Bytes

  datatype Sealed = Sealed(text: Bytes, tag: Bytes)

  /** Key, nonce, additional data, text. `None` is a failed authentication. */
  datatype Aead = Aead(
    seal: (Key, Bytes, Bytes, Bytes) -> Sealed,
    open: (Key, Bytes, Bytes, Sealed) -> Option<Bytes>)

  /** The cipher keeps lengths and makes 16-byte tags. */
  ghost predicate KeepsLengths(a: Aead) {
    forall key, nonce, aad, text {:trigger a.seal(key, nonce, aad, text)} ::
      |a.seal(key, nonce, aad, text).text| == |text| && |a.seal(key, nonce, aad, text).tag| == TAG_BYTES
  }

  /** It opens what it sealed. */
  ghost predicate AeadOk(a: Aead) {
    && KeepsLengths(a)
    && forall key, nonce, aad, text {:trigger a.seal(key, nonce, aad, text)} ::
         a.open(key, nonce, aad, a.seal(key, nonce, aad, text)) == Some(text)
  }
}
