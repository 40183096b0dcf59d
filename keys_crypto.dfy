/** The key-file format of security/keys_crypto.py: an encrypted blob is
    salt ++ nonce ++ tag ++ ciphertext, and decryption slices it back at
    fixed offsets. PBKDF2, AES-GCM and the random bytes stay abstract: the
    key derivation and the cipher are parameters, the random salt and
    nonce are inputs. */
module KeysCrypto {
  import opened Common

  newtype byte = x: int | 0 <= x < 256

  type Bytes = seq<byte>

  const Iterations: nat := 200000
  const SaltSize: nat := 16
  const NonceSize: nat := 12
  const KeyLen: nat := 32
  /** The GCM tag length that `decrypt` assumes. */
  const TagSize: nat := 16

  /** The four parts of a blob. */
  datatype Frame = Frame(salt: Bytes, nonce: Bytes, tag: Bytes, ciphertext: Bytes)

  /** A sealed message as `encrypt_and_digest` returns it. */
  datatype Sealed = Sealed(ciphertext: Bytes, tag: Bytes)

  /** PBKDF2 with SHA-256 (`kdf(password, salt, keyLen, iterations)`) and
      AES-GCM encryption and verified decryption; `open` gives `None` for
      the ValueError of a tag that does not verify. */
  datatype Crypto = Crypto(kdf: (Bytes, Bytes, nat, nat) -> Bytes,
                           seal: (Bytes, Bytes, Bytes) -> Sealed,
                           open: (Bytes, Bytes, Bytes, Bytes) -> Option<Bytes>)

  /** `out = salt + nonce + tag + ciphertext`. */
  function Pack(f: Frame): Bytes {
    f.salt + f.nonce + f.tag + f.ciphertext
  }

  /** Python's `b[lo:hi]` for `0 <= lo <= hi`: bounds past the end are
      clamped, so a short blob gives short or empty pieces. */
  function Slice(b: Bytes, lo: nat, hi: nat): (r: Bytes)
    requires lo <= hi
    ensures |r| == MinInt(hi, |b|) - MinInt(lo, |b|)
  {
    b[MinInt(lo, |b|)..MinInt(hi, |b|)]
  }

  /** Python's `b[lo:]`: empty once `lo` is past the end. */
  function SliceFrom(b: Bytes, lo: nat): (r: Bytes)
    ensures |r| == |b| - MinInt(lo, |b|)
  {
    b[MinInt(lo, |b|)..]
  }

  /** The slicing at the top of `decrypt`. */
  function Unpack(blob: Bytes): Frame {
    Frame(Slice(blob, 0, SaltSize),
          Slice(blob, SaltSize, SaltSize + NonceSize),
          Slice(blob, SaltSize + NonceSize, SaltSize + NonceSize + TagSize),
          SliceFrom(blob, SaltSize + NonceSize + TagSize))
  }

  /** Slicing a packed frame gives back its four parts when the salt, the
      nonce and the tag have their fixed sizes. */
  lemma UnpackPack(f: Frame)
    requires |f.salt| == SaltSize && |f.nonce| == NonceSize && |f.tag| == TagSize
    ensures Unpack(Pack(f)) == f
  {
    var b := Pack(f);
    assert b[..16] == f.salt;
    assert b[16..28] == f.nonce;
    assert b[28..44] == f.tag;
    assert b[44..] == f.ciphertext;
  }

  /** The four slices cover every blob, so packing them restores it. */
  lemma PackUnpack(blob: Bytes)
    ensures Pack(Unpack(blob)) == blob
  {
    var f := Unpack(blob);
    var a := MinInt(16, |blob|);
    var b := MinInt(28, |blob|);
    var c := MinInt(44, |blob|);
    assert blob[..a] + blob[a..b] + blob[b..c] + blob[c..] == blob;
  }

  /** A blob shorter than 44 bytes does not fail in the slicing: its parts
      are cut short, later ones empty, and the ciphertext is empty. */
  lemma ShortBlob(blob: Bytes)
    requires |blob| < SaltSize + NonceSize + TagSize
    ensures var f := Unpack(blob);
      && |f.salt| == MinInt(SaltSize, |blob|)
      && |f.nonce| == (if |blob| <= 16 then 0 else MinInt(28, |blob|) - 16)
      && |f.tag| == (if |blob| <= 28 then 0 else |blob| - 28)
      && f.ciphertext == []
      && Pack(f) == blob
  {
    PackUnpack(blob);
  }

  /** `derive_key(password, salt)`. */
  function DeriveKey(c: Crypto, password: Bytes, salt: Bytes): Bytes {
    c.kdf(password, salt, KeyLen, Iterations)
  }

  /** `encrypt(password, data)`, with the random salt and nonce as inputs. */
  function Encrypt(c: Crypto, password: Bytes, data: Bytes, salt: Bytes, nonce: Bytes): Bytes {
    var key := DeriveKey(c, password, salt);
    var sealed := c.seal(key, nonce, data);
    Pack(Frame(salt, nonce, sealed.tag, sealed.ciphertext))
  }

  /** `decrypt(password, blob)`. */
  function Decrypt(c: Crypto, password: Bytes, blob: Bytes): Option<Bytes> {
    var f := Unpack(blob);
    c.open(DeriveKey(c, password, f.salt), f.nonce, f.ciphertext, f.tag)
  }

  /** GCM's own promises: 16-byte tags, and opening what was sealed under
      the same key and nonce gives the data back. */
  ghost predicate Gcm(c: Crypto) {
    && (forall k, n, d :: |c.seal(k, n, d).tag| == TagSize)
    && (forall k, n, d :: c.open(k, n, c.seal(k, n, d).ciphertext, c.seal(k, n, d).tag) == Some(d))
  }

  /** Decryption reads back the salt and nonce `encrypt` used, so the same
      password derives the same key, and the ciphertext and tag it sealed. */
  lemma DecryptSeesEncryption(c: Crypto, password: Bytes, data: Bytes, salt: Bytes, nonce: Bytes)
    requires |salt| == SaltSize && |nonce| == NonceSize
    requires forall k, n, d :: |c.seal(k, n, d).tag| == TagSize
    ensures var f := Unpack(Encrypt(c, password, data, salt, nonce));
      var sealed := c.seal(DeriveKey(c, password, salt), nonce, data);
      && f == Frame(salt, nonce, sealed.tag, sealed.ciphertext)
      && DeriveKey(c, password, f.salt) == DeriveKey(c, password, salt)
  {
    var sealed := c.seal(DeriveKey(c, password, salt), nonce, data);
    UnpackPack(Frame(salt, nonce, sealed.tag, sealed.ciphertext));
  }

  /** With a correct GCM, decrypting what `encrypt` wrote with the same
      password gives the data back. */
  lemma DecryptEncrypt(c: Crypto, password: Bytes, data: Bytes, salt: Bytes, nonce: Bytes)
    requires |salt| == SaltSize && |nonce| == NonceSize
    requires Gcm(c)
    ensures Decrypt(c, password, Encrypt(c, password, data, salt, nonce)) == Some(data)
  {
    DecryptSeesEncryption(c, password, data, salt, nonce);
  }
}
