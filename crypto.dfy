/**
 * The symmetric-encryption layer. Fernet, PBKDF2-HMAC-SHA256 (section 5.2 of
 * RFC 8018), url-safe base64 (section 5 of RFC 4648) and `os.urandom` are
 * library calls: they enter the model as function values and random inputs,
 * and what the code relies on them for is stated as the predicate `Sound`.
 */
module Crypto {
  import opened Basics
  import opened Text

  type Bytes = seq<bv8>

  /** Fernet key material as written to a key file. */
  type Key = Bytes

  /** PBKDF2-HMAC-SHA256 with 100000 iterations and a 32-byte output, url-safe
      base64 encoded: `base64.urlsafe_b64encode(kdf.derive(password.encode()))`. */
  type Kdf = (string, Bytes) -> Key

  const SaltLength: nat := 16

  /**
   * `seal(k, nonce, m)` is `base64.urlsafe_b64encode(Fernet(k).encrypt(m.encode())).decode()`;
   * `nonce` stands for the random IV and timestamp Fernet draws, so two calls
   * may give different tokens. `open(k, t)` is
   * `Fernet(k).decrypt(base64.urlsafe_b64decode(t)).decode()`, with `Err`
   * carrying the text of the exception it raises.
   */
  datatype Cipher = Cipher(
    seal: (Key, Bytes, string) -> string,
    open: (Key, string) -> Result<string, string>)

  /** The url-safe base64 alphabet of section 5 of RFC 4648, with padding. */
  predicate IsBase64UrlChar(c: char) {
    ('A' <= c <= 'Z') || ('a' <= c <= 'z') || ('0' <= c <= '9') || c == '-' || c == '_' || c == '='
  }

  predicate IsBase64Text(s: string) {
    s != [] && forall i :: 0 <= i < |s| ==> IsBase64UrlChar(s[i])
  }

  /** What the library guarantees: opening a sealed message with the same key
      gives the message back, and a sealed message is non-empty base64 text. */
  ghost predicate Sound(c: Cipher) {
    forall k: Key, n: Bytes, m: string {:trigger c.seal(k, n, m)} ::
      c.open(k, c.seal(k, n, m)) == Ok(m) && IsBase64Text(c.seal(k, n, m))
  }

  /** Base64 text is one line with nothing for `str.strip()` to remove. */
  lemma Base64OneStrippedLine(t: string)
    requires IsBase64Text(t)
    ensures '\n' !in t && Strip(t) == t
  {
    assert !IsPySpace(t[0]) && !IsPySpace(t[|t| - 1]);
    assert forall i :: 0 <= i < |t| ==> t[i] != '\n';
  }

  /** `generate_encryption_key(password, salt)`: a missing salt is replaced by
      16 fresh random bytes; the key is the KDF of password and salt. */
  function GenerateEncryptionKey(kdf: Kdf, password: string, salt: Option<Bytes>, randomSalt: Bytes): (r: (Key, Bytes))
    requires salt.None? ==> |randomSalt| == SaltLength
    ensures salt.Some? ==> r.1 == salt.value
    ensures salt.None? ==> r.1 == randomSalt && |r.1| == SaltLength
    ensures r.0 == kdf(password, r.1)
  {
    var s := if salt.Some? then salt.value else randomSalt;
    (kdf(password, s), s)
  }

  const DecryptFailedPrefix := "\U{274C} Decryption failed: "

  /** `decrypt_message`: without a Fernet instance the text comes back as it is;
      a decryption error becomes a message instead of an exception. */
  function DecryptMessage(fernet: Option<Key>, text: string, cipher: Cipher): (r: string)
    ensures fernet.None? ==> r == text
    ensures fernet.Some? ==>
      match cipher.open(fernet.value, text)
      case Ok(m) => r == m
      case Err(e) => StartsWith(r, DecryptFailedPrefix) && r[|DecryptFailedPrefix|..] == e
  {
    if fernet.None? then text
    else match cipher.open(fernet.value, text)
      case Ok(m) => m
      case Err(e) => DecryptFailedPrefix + e
  }

  /** `encrypt_message`: without a Fernet instance the plaintext is sent as it is. */
  function EncryptMessage(fernet: Option<Key>, message: string, cipher: Cipher, nonce: Bytes): (r: string)
    ensures fernet.None? ==> r == message
  {
    if fernet.None? then message else cipher.seal(fernet.value, nonce, message)
  }

  /** With a sound cipher, `DecryptMessage` turns what `EncryptMessage` produced
      back into the plaintext under the same key, and an encrypted message is
      base64 text. */
  lemma EncryptDecryptRoundTrip(fernet: Option<Key>, message: string, cipher: Cipher, nonce: Bytes)
    requires Sound(cipher)
    ensures DecryptMessage(fernet, EncryptMessage(fernet, message, cipher, nonce), cipher) == message
    ensures fernet.Some? ==> IsBase64Text(EncryptMessage(fernet, message, cipher, nonce))
  {
    if fernet.Some? {
      var t := cipher.seal(fernet.value, nonce, message);
      assert cipher.open(fernet.value, t) == Ok(message);
    }
  }
}
