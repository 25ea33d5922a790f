/** The encrypted chunk format: version (1), salt (16), nonce (12), tag (16), ciphertext
    (backend/file_engine/crypto.py:26-156).

    PBKDF2, AES-GCM, zstd and SHA-256 are parameters. The contract asks of the ciphers no more than
    that opening undoes sealing, and of the compressor that decompressing undoes compressing. */
module Crypto {
  import opened Seqs

  const VERSION := 1
  const SALT_SIZE := 16
  const KEY_SIZE := 32
  const NONCE_SIZE := 12
  const TAG_SIZE := 16
  const HEADER_SIZE := 1 + SALT_SIZE + NONCE_SIZE + TAG_SIZE

  datatype Sealed = Sealed(ciphertext: Bytes, tag: Bytes)

  /** The libraries. None is an exception of the library. */
  datatype Library = Library(
    hash: Bytes -> string,
    hashText: string -> string,
    derive: (string, Bytes) -> Bytes,
    seal: (Bytes, Bytes, Bytes) -> Option<Sealed>,
    unseal: (Bytes, Bytes, Bytes, Bytes) -> Option<Bytes>,
    compress: Bytes -> Bytes,
    decompress: Bytes -> Option<Bytes>)

  ghost predicate SealingWorks(l: Library) {
    forall key, nonce, data :: |key| == KEY_SIZE && |nonce| == NONCE_SIZE ==> Unseals(l, key, nonce, data)
  }

  predicate Unseals(l: Library, key: Bytes, nonce: Bytes, data: Bytes) {
    var s := l.seal(key, nonce, data);
    && s.Some? && |s.value.tag| == TAG_SIZE
    && l.unseal(key, nonce, s.value.ciphertext, s.value.tag) == Some(data)
  }

  ghost predicate Contract(l: Library) {
    && SealingWorks(l)
    && (forall password, salt :: |l.derive(password, salt)| == KEY_SIZE)
    && (forall data :: l.decompress(l.compress(data)) == Some(data))
  }

  /** `data[1:1 + SALT_SIZE]`, which is shorter when the data is. */
  function SaltOf(data: Bytes): Bytes {
    if |data| <= 1 then [] else if |data| < 1 + SALT_SIZE then data[1..] else data[1..1 + SALT_SIZE]
  }

  function EncryptWithKey(l: Library, data: Bytes, key: Bytes, salt: Bytes, nonce: Bytes): Option<Bytes> {
    var s := l.seal(key, nonce, data);
    if s.None? then None else Some([VERSION] + salt + nonce + s.value.tag + s.value.ciphertext)
  }

  function DecryptWithKey(l: Library, encrypted: Bytes, key: Bytes): Option<Bytes> {
    if |encrypted| < HEADER_SIZE then None
    else if encrypted[0] != VERSION then None
    else
      var off := 1 + SALT_SIZE;
      var nonce := encrypted[off..off + NONCE_SIZE];
      var off := off + NONCE_SIZE;
      var tag := encrypted[off..off + TAG_SIZE];
      var off := off + TAG_SIZE;
      l.unseal(key, nonce, encrypted[off..], tag)
  }

  function Decrypt(l: Library, encrypted: Bytes, password: string): Option<Bytes> {
    if |encrypted| < HEADER_SIZE then None
    else if encrypted[0] != VERSION then None
    else DecryptWithKey(l, encrypted, l.derive(password, encrypted[1..1 + SALT_SIZE]))
  }

  /** The header slices of the decrypting side are the ones the encrypting side wrote. */
  lemma HeaderLayout(salt: Bytes, nonce: Bytes, tag: Bytes, ciphertext: Bytes)
    requires |salt| == SALT_SIZE && |nonce| == NONCE_SIZE && |tag| == TAG_SIZE
    ensures var e := [VERSION] + salt + nonce + tag + ciphertext;
            && |e| >= HEADER_SIZE && e[0] == VERSION
            && e[1..17] == salt && e[17..29] == nonce && e[29..45] == tag && e[45..] == ciphertext
  {
  }

  /** Decrypting with the key undoes encrypting with it; with the password, the key is derived again from
      the salt in the header. */
  lemma EncryptRoundTrip(l: Library, data: Bytes, key: Bytes, salt: Bytes, nonce: Bytes)
    requires Contract(l) && |key| == KEY_SIZE && |salt| == SALT_SIZE && |nonce| == NONCE_SIZE
    ensures var e := EncryptWithKey(l, data, key, salt, nonce);
            && e.Some? && SaltOf(e.value) == salt
            && DecryptWithKey(l, e.value, key) == Some(data)
            && forall password :: key == l.derive(password, salt) ==> Decrypt(l, e.value, password) == Some(data)
  {
    assert Unseals(l, key, nonce, data);
    var s := l.seal(key, nonce, data).value;
    HeaderLayout(salt, nonce, s.tag, s.ciphertext);
  }

  /** A key derived from the first salt serves every chunk with that salt. */
  lemma SharedSaltDecrypts(l: Library, data: Bytes, other: Bytes, password: string)
    requires SaltOf(data) == SaltOf(other)
    ensures DecryptWithKey(l, data, l.derive(password, SaltOf(other))) == Decrypt(l, data, password)
  {
  }

  /** The contract is consistent: a library that copies its input meets it. */
  lemma ContractIsMet(hash: Bytes -> string, hashText: string -> string)
    ensures Contract(Library(hash, hashText,
                             (password, salt) => seq(KEY_SIZE, i => 0),
                             (key, nonce, data) => Some(Sealed(data, seq(TAG_SIZE, i => 0))),
                             (key, nonce, ciphertext, tag) => Some(ciphertext),
                             data => data, data => Some(data)))
  {
  }
}
