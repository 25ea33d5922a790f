/** What an upload leaves in the store, byte by byte: whether and how each chunk is encrypted
    (backend/file_engine/pipeline.py:38-140, backend/file_engine/chunker.py:305-388,
    backend/file_engine/crypto.py:75-156). */
module AtRest {
  import opened Seqs
  import opened Crypto
  import opened Chunker
  import opened Pipeline
  import M = Merkle

  /** `data` is `plain` sealed with the key and the nonce: version, salt, nonce, tag, ciphertext. */
  ghost predicate SealedWith(l: Library, key: Bytes, salt: Bytes, nonce: Bytes, plain: Bytes, data: Bytes) {
    exists tag, ciphertext :: l.seal(key, nonce, plain) == Some(Sealed(ciphertext, tag))
                              && data == [1] + salt + nonce + tag + ciphertext
  }

  /** Entry i of the manifest describes chunk i. */
  predicate Describes(l: Library, m: Manifest, datas: seq<Bytes>, encrypted: bool) {
    && |m.chunks| == |datas|
    && forall i :: 0 <= i < |datas| ==> m.chunks[i] == ChunkInfo(i, l.hash(datas[i]), |datas[i]|, encrypted)
  }

  /** The manifest describes the file and its chunks. */
  ghost predicate Manifested(l: Library, file: Bytes, chunkSize: int, c: Chunked, encrypted: bool) {
    && c.manifest.originalSize == |file| && c.manifest.fileHash == l.hash(file)
    && c.manifest.chunkSize == chunkSize && c.manifest.compression == "zstd"
    && c.manifest.merkleRoot == M.Root(l.hashText, seq(|c.datas|, i requires 0 <= i < |c.datas| => l.hash(c.datas[i])))
    && Describes(l, c.manifest, c.datas, encrypted)
  }

  /** Chunk by chunk: compressed, and sealed when there is a key. */
  ghost predicate StoredAs(l: Library, raws: seq<Bytes>, datas: seq<Bytes>, key: Option<Bytes>, salt: Bytes, nonces: nat -> Bytes) {
    && |datas| == |raws|
    && forall i :: 0 <= i < |raws| ==>
         if key.Some? then SealedWith(l, key.value, salt, nonces(i), l.compress(raws[i]), datas[i])
         else datas[i] == l.compress(raws[i])
  }

  lemma PackedAs(l: Library, p: Packing, raws: seq<Bytes>, i: nat)
    requires i < |raws| && (p.encrypt ==> p.key.Some?) && PackAt(l, p, raws, i).Some?
    ensures if p.encrypt then SealedWith(l, p.key.value, p.salt, p.nonces(i), l.compress(raws[i]), PackAt(l, p, raws, i).value)
            else PackAt(l, p, raws, i).value == l.compress(raws[i])
  {
    if p.encrypt {
      var s := l.seal(p.key.value, p.nonces(i), l.compress(raws[i])).value;
      assert s == Sealed(s.ciphertext, s.tag);
    }
  }

  /** The cipher fails on a chunk. */
  ghost predicate CipherFails(l: Library, raws: seq<Bytes>, key: Option<Bytes>, nonces: nat -> Bytes) {
    key.Some? && exists i: nat :: i < |raws| && l.seal(key.value, nonces(i), l.compress(raws[i])).None?
  }

  lemma ChunksAreManifested(l: Library, file: Bytes, chunkSize: int, p: Packing)
    requires ChunkedWith(l, file, chunkSize, p).Ok?
    ensures Manifested(l, file, chunkSize, ChunkedWith(l, file, chunkSize, p).value, p.encrypt)
  {
    var c := ChunkedWith(l, file, chunkSize, p).value;
    assert Hashes(l, c.datas) == seq(|c.datas|, i requires 0 <= i < |c.datas| => l.hash(c.datas[i]));
  }

  lemma ChunksAreStored(l: Library, file: Bytes, chunkSize: int, p: Packing)
    requires ChunkedWith(l, file, chunkSize, p).Ok? && (p.encrypt <==> p.key.Some?)
    ensures StoredAs(l, FileChunks(file, chunkSize), ChunkedWith(l, file, chunkSize, p).value.datas, p.key, p.salt, p.nonces)
  {
    var raws, datas := FileChunks(file, chunkSize), ChunkedWith(l, file, chunkSize, p).value.datas;
    forall i | 0 <= i < |raws|
      ensures if p.key.Some? then SealedWith(l, p.key.value, p.salt, p.nonces(i), l.compress(raws[i]), datas[i])
              else datas[i] == l.compress(raws[i])
    {
      PackedAs(l, p, raws, i);
    }
  }

  lemma ChunkingFails(l: Library, file: Bytes, chunkSize: int, p: Packing)
    requires p.encrypt <==> p.key.Some?
    ensures ChunkedWith(l, file, chunkSize, p).Err? <==> CipherFails(l, FileChunks(file, chunkSize), p.key, p.nonces)
  {
    var raws := FileChunks(file, chunkSize);
    forall i | 0 <= i < |raws|
      ensures PackAt(l, p, raws, i).None? <==> p.key.Some? && l.seal(p.key.value, p.nonces(i), l.compress(raws[i])).None?
    {
    }
    if !AllPacked(l, p, raws) {
      var i: nat :| i < |raws| && PackAt(l, p, raws, i).None?;
    }
  }

  /** Storing a file through the pipeline: if and only if a password is given every entry is marked encrypted,
      and then chunk i is sealed with the key of the password and the salt under nonce i; otherwise it is
      just compressed. It fails only when the cipher does. */
  lemma PipelineEncrypts(l: Library, file: Bytes, chunkSize: Option<int>, password: Option<string>, salt: Bytes, nonces: nat -> Bytes)
    ensures var c, size := ChunkedByPipeline(l, file, chunkSize, password, salt, nonces), ChunkSizeFor(file, chunkSize);
            var given := password.Some? && password.value != "";
            var key := if given then Some(l.derive(password.value, salt)) else None;
            && (c.Ok? ==> Manifested(l, file, size, c.value, given)
                          && StoredAs(l, FileChunks(file, size), c.value.datas, key, salt, nonces))
            && (c.Err? <==> CipherFails(l, FileChunks(file, size), key, nonces))
  {
    var size, p := ChunkSizeFor(file, chunkSize), PipelinePacking(l, password, salt, nonces);
    ChunkingFails(l, file, size, p);
    if ChunkedWith(l, file, size, p).Ok? {
      ChunksAreManifested(l, file, size, p);
      ChunksAreStored(l, file, size, p);
    }
  }

  /** `chunk_file` refuses a password together with a key; a password that is not empty, or a raw key, encrypts
      every chunk with it under its own nonce; with neither the chunks are just compressed. */
  lemma ChunkFileEncrypts(l: Library, file: Bytes, chunkSize: int, password: Option<string>, aesKey: Option<Bytes>, salt: Bytes,
                          nonces: nat -> Bytes)
    requires password != Some("")
    ensures var c := ChunkedFile(l, file, chunkSize, password, aesKey, salt, nonces);
            var key := if password.Some? then Some(l.derive(password.value, salt)) else aesKey;
            && (c.Ok? ==> Manifested(l, file, chunkSize, c.value, password.Some? || aesKey.Some?)
                          && StoredAs(l, FileChunks(file, chunkSize), c.value.datas, key, salt, nonces))
            && (c.Err? <==> (password.Some? && aesKey.Some?) || CipherFails(l, FileChunks(file, chunkSize), key, nonces))
  {
    if !(password.Some? && aesKey.Some?) {
      var p := PackingFor(l, password, aesKey, salt, nonces);
      ChunkingFails(l, file, chunkSize, p);
      if ChunkedWith(l, file, chunkSize, p).Ok? {
        ChunksAreManifested(l, file, chunkSize, p);
        ChunksAreStored(l, file, chunkSize, p);
      }
    }
  }

  /** What decrypting accepts: exactly the headers that sealing writes, opened with the nonce and the tag they
      hold. */
  lemma DecryptsExactly(l: Library, encrypted: Bytes, key: Bytes, data: Bytes)
    ensures DecryptWithKey(l, encrypted, key) == Some(data) <==>
            exists salt, nonce, tag, ciphertext ::
              && Laid(encrypted, salt, nonce, tag, ciphertext) && l.unseal(key, nonce, ciphertext, tag) == Some(data)
  {
    if DecryptWithKey(l, encrypted, key) == Some(data) {
      assert Laid(encrypted, encrypted[1..17], encrypted[17..29], encrypted[29..45], encrypted[45..]);
    }
    forall salt, nonce, tag, ciphertext |
        Laid(encrypted, salt, nonce, tag, ciphertext) && l.unseal(key, nonce, ciphertext, tag) == Some(data)
      ensures DecryptWithKey(l, encrypted, key) == Some(data)
    {
      HeaderLayout(salt, nonce, tag, ciphertext);
    }
  }

  predicate Laid(encrypted: Bytes, salt: Bytes, nonce: Bytes, tag: Bytes, ciphertext: Bytes) {
    |salt| == 16 && |nonce| == 12 && |tag| == 16 && encrypted == [1] + salt + nonce + tag + ciphertext
  }

  // ---------------------------------------------------------------- how many chunks

  lemma AtLeastOne(more: int, size: nat)
    requires more >= 1
    ensures more * size >= size
  {
  }

  lemma FewerChunks(count: nat, size: nat, bytes: nat, most: nat)
    requires count * size < bytes + size && bytes <= most * size
    ensures count <= most
  {
    var more := count - most;
    assert count * size == most * size + more * size;
    if more > 0 {
      AtLeastOne(more, size);
    }
  }

  /** With the automatic chunk size the chunks of larger files are no smaller, and a file below 50 MiB has at most 200
      chunks, one below 500 MiB at most 500. */
  lemma AutomaticChunkSize(file: Bytes, other: Bytes)
    ensures |file| <= |other| ==> ChunkSizeFor(file, None) <= ChunkSizeFor(other, None)
    ensures var count := |FileChunks(file, ChunkSizeFor(file, None))|;
            && (|file| < 50 * 1024 * 1024 ==> count <= 200)
            && (|file| < 500 * 1024 * 1024 ==> count <= 500)
    ensures ChunkSizeFor(file, None) in {256 * 1024, 1024 * 1024, 4 * 1024 * 1024}
    ensures ChunkSizeFor(file, None) == 256 * 1024 <==> |file| < 50 * 1024 * 1024
    ensures ChunkSizeFor(file, None) == 4 * 1024 * 1024 <==> |file| >= 500 * 1024 * 1024
  {
    var size := OptimalChunkSize(|file|);
    ChunkCount(file, size);
    var count := |FileChunks(file, size)|;
    if |file| < 50 * 1024 * 1024 {
      FewerChunks(count, size, |file|, 200);
    } else if |file| < 500 * 1024 * 1024 {
      FewerChunks(count, size, |file|, 500);
    }
  }
}
