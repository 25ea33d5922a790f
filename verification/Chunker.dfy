/** Splitting a file into packed chunks and merging them back
    (backend/file_engine/chunker.py:120-140,241-388,441-567). */
module Chunker {
  import opened Seqs
  import opened Crypto
  import M = Merkle

  datatype ChunkInfo = ChunkInfo(index: int, chunkHash: string, size: nat, encrypted: bool)

  datatype Manifest = Manifest(originalSize: nat, fileHash: string, chunkSize: int, merkleRoot: string,
                               compression: string, chunks: seq<ChunkInfo>)

  // ---------------------------------------------------------------- reading chunks

  /** `f.read(size)` at `pos`: a negative size reads everything. */
  function Read(file: Bytes, pos: nat, size: int): (r: Bytes)
    requires pos <= |file|
  {
    if size < 0 || pos + size > |file| then file[pos..] else file[pos..pos + size]
  }

  function FileChunks(file: Bytes, size: int): seq<Bytes>
    decreases |file|
  {
    var chunk := Read(file, 0, size);
    if |chunk| == 0 then [] else [chunk] + FileChunks(file[|chunk|..], size)
  }

  lemma NextChunk(file: Bytes, pos: nat, size: int)
    requires pos <= |file|
    ensures var chunk := Read(file, pos, size);
            FileChunks(file[pos..], size) == if |chunk| == 0 then [] else [chunk] + FileChunks(file[pos + |chunk|..], size)
  {
    var chunk := Read(file, pos, size);
    assert Read(file[pos..], 0, size) == chunk;
    assert file[pos..][|chunk|..] == file[pos + |chunk|..];
  }

  method StreamChunks(file: Bytes, size: int) returns (chunks: seq<Bytes>)
    ensures chunks == FileChunks(file, size)
  {
    var pos := 0;
    chunks := [];
    assert file[0..] == file;
    while true
      invariant pos <= |file|
      invariant FileChunks(file, size) == chunks + FileChunks(file[pos..], size)
      decreases |file| - pos
    {
      var chunk := Read(file, pos, size);
      NextChunk(file, pos, size);
      if |chunk| == 0 {
        break;
      }
      Regroup(chunks, [chunk], FileChunks(file[pos + |chunk|..], size));
      chunks := chunks + [chunk];
      pos := pos + |chunk|;
    }
  }

  /** The chunks concatenate to the file, except that size 0 yields none at all. */
  lemma {:induction false} FileChunksConcat(file: Bytes, size: int)
    ensures Concat(FileChunks(file, size)) == if size == 0 then [] else file
    decreases |file|
  {
    var chunk := Read(file, 0, size);
    if |chunk| > 0 {
      FileChunksConcat(file[|chunk|..], size);
      assert FileChunks(file, size)[1..] == FileChunks(file[|chunk|..], size);
      assert chunk + file[|chunk|..] == file;
    }
  }

  /** With a positive size every chunk but the last is full and none is empty. */
  lemma {:induction false} FileChunksFull(file: Bytes, size: int, i: nat)
    requires size > 0 && i < |FileChunks(file, size)|
    ensures 0 < |FileChunks(file, size)[i]| <= size
    ensures i + 1 < |FileChunks(file, size)| ==> |FileChunks(file, size)[i]| == size
    decreases |file|
  {
    var chunk := Read(file, 0, size);
    if i > 0 {
      FileChunksFull(file[|chunk|..], size, i - 1);
    } else if |chunk| < size {
      assert file[|chunk|..] == [];
    }
  }

  /** A file of positive chunk size has as many chunks as it takes to hold it. */
  lemma {:induction false} ChunkCount(file: Bytes, size: nat)
    requires size > 0
    ensures |file| <= |FileChunks(file, size)| * size < |file| + size
    decreases |file|
  {
    if |file| > size {
      ChunkCount(file[size..], size);
      OneChunkMore(|FileChunks(file[size..], size)|, size);
    } else if |file| > 0 {
      assert Read(file, 0, size) == file;
      assert file[|file|..] == [];
      assert FileChunks([], size) == [];
    }
  }

  lemma OneChunkMore(n: nat, size: nat)
    ensures (n + 1) * size == n * size + size
  {
  }

  // ---------------------------------------------------------------- chunk_file

  /** `if password:` */
  predicate Given(password: Option<string>) {
    password.Some? && password.value != ""
  }

  /** Compress, then encrypt. A missing key is an exception of the cipher. */
  function Pack(l: Library, encrypt: bool, key: Option<Bytes>, salt: Bytes, nonce: Bytes, raw: Bytes): Option<Bytes> {
    if !encrypt then Some(l.compress(raw))
    else if key.None? then None
    else EncryptWithKey(l, l.compress(raw), key.value, salt, nonce)
  }

  datatype Packing = Packing(encrypt: bool, key: Option<Bytes>, salt: Bytes, nonces: nat -> Bytes)

  function PackAt(l: Library, p: Packing, raws: seq<Bytes>, i: nat): Option<Bytes>
    requires i < |raws|
  {
    Pack(l, p.encrypt, p.key, p.salt, p.nonces(i), raws[i])
  }

  predicate AllPacked(l: Library, p: Packing, raws: seq<Bytes>) {
    forall i :: 0 <= i < |raws| ==> PackAt(l, p, raws, i).Some?
  }

  function PackedData(l: Library, p: Packing, raws: seq<Bytes>): seq<Bytes>
    requires AllPacked(l, p, raws)
  {
    seq(|raws|, i requires 0 <= i < |raws| => PackAt(l, p, raws, i).value)
  }

  function InfoAt(l: Library, encrypted: bool, datas: seq<Bytes>, i: nat): ChunkInfo
    requires i < |datas|
  {
    ChunkInfo(i, l.hash(datas[i]), |datas[i]|, encrypted)
  }

  function Infos(l: Library, encrypted: bool, datas: seq<Bytes>): seq<ChunkInfo> {
    seq(|datas|, i requires 0 <= i < |datas| => InfoAt(l, encrypted, datas, i))
  }

  function Hashes(l: Library, datas: seq<Bytes>): seq<string> {
    seq(|datas|, i requires 0 <= i < |datas| => l.hash(datas[i]))
  }

  lemma InfosNext(l: Library, encrypted: bool, datas: seq<Bytes>, data: Bytes)
    ensures Hashes(l, datas + [data]) == Hashes(l, datas) + [l.hash(data)]
    ensures Infos(l, encrypted, datas + [data]) ==
            Infos(l, encrypted, datas) + [ChunkInfo(|datas|, l.hash(data), |data|, encrypted)]
  {
  }

  /** `datas` are the first chunks, packed. */
  predicate PackedSoFar(l: Library, p: Packing, raws: seq<Bytes>, datas: seq<Bytes>) {
    |datas| <= |raws| && forall i :: 0 <= i < |datas| ==> PackAt(l, p, raws, i) == Some(datas[i])
  }

  lemma PackedWhole(l: Library, p: Packing, raws: seq<Bytes>, datas: seq<Bytes>)
    requires PackedSoFar(l, p, raws, datas) && |datas| == |raws|
    ensures AllPacked(l, p, raws) && datas == PackedData(l, p, raws)
  {
  }

  function ManifestOf(l: Library, file: Bytes, chunkSize: int, encrypted: bool, datas: seq<Bytes>): Manifest {
    Manifest(|file|, l.hash(file), chunkSize, M.Root(l.hashText, Hashes(l, datas)), "zstd", Infos(l, encrypted, datas))
  }

  datatype Chunked = Chunked(manifest: Manifest, datas: seq<Bytes>)

  function ChunkedWith(l: Library, file: Bytes, chunkSize: int, p: Packing): Result<Chunked> {
    var raws := FileChunks(file, chunkSize);
    if !AllPacked(l, p, raws) then Err("encryption failed")
    else
      var datas := PackedData(l, p, raws);
      Ok(Chunked(ManifestOf(l, file, chunkSize, p.encrypt, datas), datas))
  }

  /** The lists a chunker has built for the first chunks. */
  predicate BuiltSoFar(l: Library, p: Packing, raws: seq<Bytes>, infos: seq<ChunkInfo>, hashes: seq<string>, datas: seq<Bytes>) {
    PackedSoFar(l, p, raws, datas) && infos == Infos(l, p.encrypt, datas) && hashes == Hashes(l, datas)
  }

  lemma NothingBuilt(l: Library, p: Packing, raws: seq<Bytes>)
    ensures BuiltSoFar(l, p, raws, [], [], [])
  {
  }

  lemma BuiltNext(l: Library, p: Packing, raws: seq<Bytes>, infos: seq<ChunkInfo>, hashes: seq<string>, datas: seq<Bytes>, data: Bytes)
    requires BuiltSoFar(l, p, raws, infos, hashes, datas) && |datas| < |raws| && PackAt(l, p, raws, |datas|) == Some(data)
    ensures BuiltSoFar(l, p, raws, infos + [ChunkInfo(|datas|, l.hash(data), |data|, p.encrypt)], hashes + [l.hash(data)], datas + [data])
  {
    InfosNext(l, p.encrypt, datas, data);
  }

  lemma BuiltWhole(l: Library, file: Bytes, chunkSize: int, p: Packing, infos: seq<ChunkInfo>, hashes: seq<string>, datas: seq<Bytes>)
    requires BuiltSoFar(l, p, FileChunks(file, chunkSize), infos, hashes, datas) && |datas| == |FileChunks(file, chunkSize)|
    ensures ChunkedWith(l, file, chunkSize, p)
         == Ok(Chunked(Manifest(|file|, l.hash(file), chunkSize, M.Root(l.hashText, hashes), "zstd", infos), datas))
  {
    PackedWhole(l, p, FileChunks(file, chunkSize), datas);
  }

  lemma ChunkedFails(l: Library, file: Bytes, chunkSize: int, p: Packing, i: nat)
    requires i < |FileChunks(file, chunkSize)| && PackAt(l, p, FileChunks(file, chunkSize), i).None?
    ensures ChunkedWith(l, file, chunkSize, p) == Err("encryption failed")
  {
  }

  /** `salt` and `nonces` are the random bytes drawn during the call. An empty password asks for
      encryption without giving a key. */
  function PackingFor(l: Library, password: Option<string>, aesKey: Option<Bytes>, salt: Bytes, nonces: nat -> Bytes): Packing {
    var key := if Given(password) then Some(l.derive(password.value, salt)) else aesKey;
    Packing(password.Some? || aesKey.Some?, key, salt, nonces)
  }

  function ChunkedFile(l: Library, file: Bytes, chunkSize: int, password: Option<string>, aesKey: Option<Bytes>,
                       salt: Bytes, nonces: nat -> Bytes): Result<Chunked> {
    if aesKey.Some? && password.Some? then Err("password and key")
    else ChunkedWith(l, file, chunkSize, PackingFor(l, password, aesKey, salt, nonces))
  }

  method ChunkFile(l: Library, file: Bytes, chunkSize: int, password: Option<string>, aesKey: Option<Bytes>,
                   salt: Bytes, nonces: nat -> Bytes)
    returns (r: Result<Chunked>)
    ensures r == ChunkedFile(l, file, chunkSize, password, aesKey, salt, nonces)
  {
    if aesKey.Some? && password.Some? {
      return Err("password and key");
    }
    var key: Option<Bytes> := None;
    if Given(password) {
      key := Some(l.derive(password.value, salt));
    } else if aesKey.Some? {
      key := aesKey;
    }
    var encrypt := password.Some? || aesKey.Some?;
    ghost var p := PackingFor(l, password, aesKey, salt, nonces);
    var raws := StreamChunks(file, chunkSize);
    var infos, hashes, datas := [], [], [];
    NothingBuilt(l, p, raws);
    for idx := 0 to |raws|
      invariant |datas| == idx
      invariant BuiltSoFar(l, p, raws, infos, hashes, datas)
    {
      var data := Pack(l, encrypt, key, salt, nonces(idx), raws[idx]);
      assert data == PackAt(l, p, raws, idx);
      if data.None? {
        ChunkedFails(l, file, chunkSize, p, idx);
        return Err("encryption failed");
      }
      BuiltNext(l, p, raws, infos, hashes, datas, data.value);
      datas := datas + [data.value];
      hashes := hashes + [l.hash(data.value)];
      infos := infos + [ChunkInfo(idx, l.hash(data.value), |data.value|, encrypt)];
    }
    var root := M.ComputeMerkleRoot(l.hashText, hashes);
    BuiltWhole(l, file, chunkSize, p, infos, hashes, datas);
    return Ok(Chunked(Manifest(|file|, l.hash(file), chunkSize, root, "zstd", infos), datas));
  }

  // ---------------------------------------------------------------- decoding chunks

  /** A chunk entry with its bytes, or None where they could not be loaded. */
  datatype Item = Item(info: ChunkInfo, data: Option<Bytes>)

  /** How encrypted chunks are opened: left as they are, with the key derived from the salt of each
      chunk, or with one key for all. */
  datatype Keying = NoKey | Own(password: string) | Fixed(key: Bytes)

  function Plain(l: Library, zstd: bool, k: Keying, item: Item): Option<Bytes> {
    if item.data.None? then None
    else
      var clear :=
        if !item.info.encrypted then item.data
        else match k
             case NoKey => item.data
             case Own(password) => Decrypt(l, item.data.value, password)
             case Fixed(key) => DecryptWithKey(l, item.data.value, key);
      if clear.Some? && zstd then l.decompress(clear.value) else clear
  }

  /** The chunks decoded until one fails. */
  datatype Decoded = Decoded(parts: seq<Bytes>, complete: bool)

  function DecodeAll(l: Library, zstd: bool, k: Keying, items: seq<Item>): Decoded {
    if |items| == 0 then Decoded([], true)
    else
      var front := DecodeAll(l, zstd, k, items[..|items| - 1]);
      if !front.complete then front
      else
        var part := Plain(l, zstd, k, items[|items| - 1]);
        if part.None? then front.(complete := false) else front.(parts := front.parts + [part.value])
  }

  /** What is decoded: chunk by chunk up to the first that fails. */
  lemma {:induction false} DecodedExactly(l: Library, zstd: bool, k: Keying, items: seq<Item>)
    ensures var d := DecodeAll(l, zstd, k, items);
            && |d.parts| <= |items| && (d.complete <==> |d.parts| == |items|)
            && (forall i :: 0 <= i < |d.parts| ==> Plain(l, zstd, k, items[i]) == Some(d.parts[i]))
            && (!d.complete ==> Plain(l, zstd, k, items[|d.parts|]).None?)
  {
    if |items| > 0 {
      DecodedExactly(l, zstd, k, items[..|items| - 1]);
    }
  }

  lemma {:induction false} DecodeStops(l: Library, zstd: bool, k: Keying, items: seq<Item>, i: nat)
    requires i < |items| && DecodeAll(l, zstd, k, items[..i]).complete && Plain(l, zstd, k, items[i]).None?
    ensures DecodeAll(l, zstd, k, items) == DecodeAll(l, zstd, k, items[..i]).(complete := false)
    decreases |items|
  {
    if i == |items| - 1 {
      assert items[..i] == items[..|items| - 1];
    } else {
      var front := items[..|items| - 1];
      assert front[..i] == items[..i];
      DecodeStops(l, zstd, k, front, i);
    }
  }

  lemma DecodeNext(l: Library, zstd: bool, k: Keying, items: seq<Item>, i: nat)
    requires i < |items| && DecodeAll(l, zstd, k, items[..i]).complete && Plain(l, zstd, k, items[i]).Some?
    ensures var before, part := DecodeAll(l, zstd, k, items[..i]), Plain(l, zstd, k, items[i]).value;
            && DecodeAll(l, zstd, k, items[..i + 1]) == Decoded(before.parts + [part], true)
            && Concat(before.parts + [part]) == Concat(before.parts) + part
  {
    assert items[..i + 1][..i] == items[..i];
    ConcatSnoc(DecodeAll(l, zstd, k, items[..i]).parts, Plain(l, zstd, k, items[i]).value);
  }

  // ---------------------------------------------------------------- the mergers

  function Zip(infos: seq<ChunkInfo>, datas: seq<Bytes>): (items: seq<Item>)
    ensures |items| == if |infos| <= |datas| then |infos| else |datas|
    ensures forall i :: 0 <= i < |items| ==> items[i].data.Some?
  {
    seq(if |infos| <= |datas| then |infos| else |datas|,
        i requires 0 <= i < |infos| && i < |datas| => Item(infos[i], Some(datas[i])))
  }

  function Index(): Item -> int {
    (item: Item) => item.info.index
  }

  function Ordered(infos: seq<ChunkInfo>, datas: seq<Bytes>): (items: seq<Item>)
    ensures forall i :: 0 <= i < |items| ==> items[i].data.Some?
  {
    SortBySpec(Zip(infos, datas), Index());
    OrderedLoaded(Zip(infos, datas));
    SortBy(Zip(infos, datas), Index())
  }

  lemma OrderedLoaded(items: seq<Item>)
    requires forall i :: 0 <= i < |items| ==> items[i].data.Some?
    ensures forall i :: 0 <= i < |SortBy(items, Index())| ==> SortBy(items, Index())[i].data.Some?
  {
    var sorted := SortBy(items, Index());
    SortBySpec(items, Index());
    MultisetMembers(items, sorted);
    forall i | 0 <= i < |sorted| ensures sorted[i].data.Some? {
      assert sorted[i] in items;
    }
  }

  /** The key derivation of both list mergers: once, from the first chunk. */
  function FirstKeying(l: Library, password: Option<string>, items: seq<Item>): Keying {
    if !Given(password) then NoKey
    else if |items| > 0 && items[0].info.encrypted && items[0].data.Some?
    then Fixed(l.derive(password.value, SaltOf(items[0].data.value)))
    else Own(password.value)
  }

  function DiskKeying(l: Library, password: Option<string>, aesKey: Option<Bytes>, items: seq<Item>): Keying {
    if aesKey.Some? then Fixed(aesKey.value) else FirstKeying(l, password, items)
  }

  predicate HashesMatch(l: Library, items: seq<Item>)
    requires forall i :: 0 <= i < |items| ==> items[i].data.Some?
  {
    forall i :: 0 <= i < |items| ==> l.hash(items[i].data.value) == items[i].info.chunkHash
  }

  function InfoHashes(items: seq<Item>): seq<string> {
    seq(|items|, i requires 0 <= i < |items| => items[i].info.chunkHash)
  }

  /** The chunk hashes, the Merkle root and the file hash are all checked; the result is the
      concatenation of the decoded chunks whatever `originalSize` says. */
  function Merged(l: Library, m: Manifest, datas: seq<Bytes>, password: Option<string>): (r: Result<Bytes>)
    ensures r.Ok? ==> l.hash(r.value) == m.fileHash
  {
    var items := Ordered(m.chunks, datas);
    if !HashesMatch(l, items) then Err("chunk hash")
    else if m.merkleRoot != "" && M.Root(l.hashText, InfoHashes(items)) != m.merkleRoot then Err("merkle root")
    else
      var d := DecodeAll(l, m.compression == "zstd", FirstKeying(l, password, items), items);
      if !d.complete then Err("decode")
      else if l.hash(Concat(d.parts)) != m.fileHash then Err("integrity")
      else Ok(Concat(d.parts))
  }

  /** `buffer[lo:hi] = data` of a bytearray: the bounds are clamped and the length may change. */
  function SliceAssign(buffer: Bytes, lo: nat, hi: nat, data: Bytes): Bytes
    requires lo <= hi
  {
    var lo' := if lo <= |buffer| then lo else |buffer|;
    var hi' := if hi <= |buffer| then hi else |buffer|;
    buffer[..lo'] + data + buffer[hi'..]
  }

  lemma BufferGrows(buffer: Bytes, offset: nat, data: Bytes)
    requires offset <= |buffer|
    ensures var now := SliceAssign(buffer, offset, offset + |data|, data);
            && offset + |data| <= |now| && now[..offset + |data|] == buffer[..offset] + data
  {
  }

  /** The checking loop of `merge_chunks`. */
  method CheckHashes(l: Library, m: Manifest, ordered: seq<Item>) returns (r: Result<bool>)
    requires forall i :: 0 <= i < |ordered| ==> ordered[i].data.Some?
    ensures r == if !HashesMatch(l, ordered) then Err("chunk hash")
                 else if m.merkleRoot != "" && M.Root(l.hashText, InfoHashes(ordered)) != m.merkleRoot
                 then Err("merkle root") else Ok(true)
  {
    var received: seq<string> := [];
    for i := 0 to |ordered|
      invariant forall j :: 0 <= j < i ==> l.hash(ordered[j].data.value) == ordered[j].info.chunkHash
      invariant received == InfoHashes(ordered[..i])
    {
      var actual := l.hash(ordered[i].data.value);
      if actual != ordered[i].info.chunkHash {
        return Err("chunk hash");
      }
      received := received + [actual];
      assert ordered[..i + 1] == ordered[..i] + [ordered[i]];
    }
    assert ordered[..|ordered|] == ordered;
    if m.merkleRoot != "" {
      var root := M.ComputeMerkleRoot(l.hashText, received);
      if root != m.merkleRoot {
        return Err("merkle root");
      }
    }
    return Ok(true);
  }

  /** The buffer loop of `merge_chunks`: every decoded chunk is assigned to its slice. */
  method FillBuffer(l: Library, m: Manifest, keying: Keying, ordered: seq<Item>) returns (result: Option<Bytes>)
    ensures var d := DecodeAll(l, m.compression == "zstd", keying, ordered);
            result == if d.complete then Some(Concat(d.parts)) else None
  {
    var zstd := m.compression == "zstd";
    var buffer: Bytes := seq(m.originalSize, i => 0);
    var offset := 0;
    assert ordered[..0] == [];
    for i := 0 to |ordered|
      invariant DecodeAll(l, zstd, keying, ordered[..i]).complete
      invariant 0 <= offset <= |buffer|
      invariant buffer[..offset] == Concat(DecodeAll(l, zstd, keying, ordered[..i]).parts)
    {
      var data := Plain(l, zstd, keying, ordered[i]);
      if data.None? {
        DecodeStops(l, zstd, keying, ordered, i);
        return None;
      }
      DecodeNext(l, zstd, keying, ordered, i);
      BufferGrows(buffer, offset, data.value);
      buffer := SliceAssign(buffer, offset, offset + |data.value|, data.value);
      offset := offset + |data.value|;
    }
    assert ordered[..|ordered|] == ordered;
    return Some(buffer[..offset]);
  }

  method MergeChunks(l: Library, m: Manifest, datas: seq<Bytes>, password: Option<string>) returns (r: Result<Bytes>)
    ensures r == Merged(l, m, datas, password)
  {
    var ordered := Ordered(m.chunks, datas);
    var checked := CheckHashes(l, m, ordered);
    if checked.Err? {
      return Err(checked.message);
    }
    var result := FillBuffer(l, m, FirstKeying(l, password, ordered), ordered);
    if result.None? {
      return Err("decode");
    }
    if l.hash(result.value) != m.fileHash {
      return Err("integrity");
    }
    return Ok(result.value);
  }

  /** What a merge to disk leaves: the whole file, or a failure with what is left at the output path
      (nothing after a failed integrity check, the chunks written so far after a failed chunk). */
  datatype OnDisk = Written(content: Bytes) | Failed(leftover: Option<Bytes>)

  function DiskOutcome(l: Library, m: Manifest, k: Keying, items: seq<Item>): (r: OnDisk)
    ensures r.Written? ==> l.hash(r.content) == m.fileHash
  {
    var d := DecodeAll(l, m.compression == "zstd", k, items);
    if !d.complete then Failed(Some(Concat(d.parts)))
    else if l.hash(Concat(d.parts)) != m.fileHash then Failed(None)
    else Written(Concat(d.parts))
  }

  method MergeChunksToDisk(l: Library, m: Manifest, datas: seq<Bytes>, password: Option<string>, aesKey: Option<Bytes>)
    returns (r: OnDisk)
    ensures var items := Ordered(m.chunks, datas);
            r == DiskOutcome(l, m, DiskKeying(l, password, aesKey, items), items)
  {
    var ordered := Ordered(m.chunks, datas);
    var keying := DiskKeying(l, password, aesKey, ordered);
    var zstd := m.compression == "zstd";
    var file, hashed: Bytes := [], [];
    assert ordered[..0] == [];
    for i := 0 to |ordered|
      invariant DecodeAll(l, zstd, keying, ordered[..i]).complete
      invariant file == hashed == Concat(DecodeAll(l, zstd, keying, ordered[..i]).parts)
    {
      var data := Plain(l, zstd, keying, ordered[i]);
      if data.None? {
        DecodeStops(l, zstd, keying, ordered, i);
        return Failed(Some(file));
      }
      DecodeNext(l, zstd, keying, ordered, i);
      file := file + data.value;
      hashed := hashed + data.value;
    }
    assert ordered[..|ordered|] == ordered;
    if l.hash(hashed) != m.fileHash {
      return Failed(None);
    }
    return Written(file);
  }
}
