/** The streaming pipelines over a chunk store (backend/file_engine/pipeline.py:38-140,143-279). */
module Pipeline {
  import opened Seqs
  import opened Crypto
  import opened Chunker
  import opened LocalStores
  import M = Merkle

  // ---------------------------------------------------------------- chunk and store

  function OptimalChunkSize(fileSize: nat): (size: nat)
    ensures size > 0
  {
    if fileSize < 50 * 1024 * 1024 then 262144
    else if fileSize < 500 * 1024 * 1024 then 1048576
    else 4194304
  }

  function ChunkSizeFor(file: Bytes, chunkSize: Option<int>): int {
    if chunkSize.None? then OptimalChunkSize(|file|) else chunkSize.value
  }

  function PipelinePacking(l: Library, password: Option<string>, salt: Bytes, nonces: nat -> Bytes): Packing {
    Packing(Given(password), if Given(password) then Some(l.derive(password.value, salt)) else None, salt, nonces)
  }

  function ChunkedByPipeline(l: Library, file: Bytes, chunkSize: Option<int>, password: Option<string>,
                             salt: Bytes, nonces: nat -> Bytes): Result<Chunked> {
    ChunkedWith(l, file, ChunkSizeFor(file, chunkSize), PipelinePacking(l, password, salt, nonces))
  }

  /** The store after the chunks were saved in order, each under its hash. */
  function Stored(l: Library, chunks: map<string, Bytes>, datas: seq<Bytes>): map<string, Bytes> {
    if |datas| == 0 then chunks
    else
      var last := datas[|datas| - 1];
      Stored(l, chunks, datas[..|datas| - 1])[l.hash(last) := last]
  }

  lemma StoredNext(l: Library, chunks: map<string, Bytes>, datas: seq<Bytes>, data: Bytes)
    ensures Stored(l, chunks, datas + [data]) == Stored(l, chunks, datas)[l.hash(data) := data]
  {
    assert (datas + [data])[..|datas|] == datas;
  }

  /** One store task is pending while the next chunk is packed, and is awaited before the next one
      starts. */
  method ChunkAndStore(l: Library, file: Bytes, chunkSize: Option<int>, password: Option<string>, salt: Bytes,
                       nonces: nat -> Bytes, store: LocalStore)
    returns (r: Result<Manifest>)
    modifies store
    ensures var c := ChunkedByPipeline(l, file, chunkSize, password, salt, nonces);
            && (c.Ok? ==> r == Ok(c.value.manifest) && store.chunks == Stored(l, old(store.chunks), c.value.datas))
            && (c.Err? ==> r == Err(c.message))
  {
    ghost var was, p := store.chunks, PipelinePacking(l, password, salt, nonces);
    var size := ChunkSizeFor(file, chunkSize);
    var key: Option<Bytes> := None;
    if Given(password) {
      key := Some(l.derive(password.value, salt));
    }
    var encrypt := Given(password);
    var raws := StreamChunks(file, size);
    var infos, hashes: seq<string> := [], [];
    ghost var datas: seq<Bytes> := [];
    var pending: Option<(string, Bytes)> := None;
    NothingBuilt(l, p, raws);
    for idx := 0 to |raws|
      invariant |datas| == idx
      invariant BuiltSoFar(l, p, raws, infos, hashes, datas)
      invariant Stored(l, was, datas) == Awaited(store.chunks, pending)
    {
      var ct := Pack(l, encrypt, key, salt, nonces(idx), raws[idx]);
      assert ct == PackAt(l, p, raws, idx);
      if ct.None? {
        ChunkedFails(l, file, size, p, idx);
        return Err("encryption failed");
      }
      var ch := l.hash(ct.value);
      BuiltNext(l, p, raws, infos, hashes, datas, ct.value);
      hashes := hashes + [ch];
      infos := infos + [ChunkInfo(idx, ch, |ct.value|, encrypt)];
      if pending.Some? {
        store.SaveChunk(pending.value.0, pending.value.1);
      }
      StoredNext(l, was, datas, ct.value);
      datas := datas + [ct.value];
      pending := Some((ch, ct.value));
    }
    if pending.Some? {
      store.SaveChunk(pending.value.0, pending.value.1);
    }
    var root := M.ComputeMerkleRoot(l.hashText, hashes);
    BuiltWhole(l, file, size, p, infos, hashes, datas);
    return Ok(Manifest(|file|, l.hash(file), size, root, "zstd", infos));
  }

  /** The store once the pending task is done. */
  function Awaited(chunks: map<string, Bytes>, pending: Option<(string, Bytes)>): map<string, Bytes> {
    if pending.None? then chunks else chunks[pending.value.0 := pending.value.1]
  }

  // ---------------------------------------------------------------- merge to disk

  function InfoIndex(): ChunkInfo -> int {
    (info: ChunkInfo) => info.index
  }

  /** What `load_fn` gives for each chunk; None where it raises. */
  function Items(load: string -> Option<Bytes>, infos: seq<ChunkInfo>): seq<Item> {
    seq(|infos|, i requires 0 <= i < |infos| => Item(infos[i], load(infos[i].chunkHash)))
  }

  /** The keying every reader amounts to: no key without a password, else the salt of each chunk. */
  function Reference(password: Option<string>): Keying {
    if Given(password) then Own(password.value) else NoKey
  }

  /** Decode one chunk with the key derived from its own salt. */
  method DecodeOwn(l: Library, zstd: bool, password: Option<string>, info: ChunkInfo, data: Bytes) returns (plain: Option<Bytes>)
    ensures plain == Plain(l, zstd, Reference(password), Item(info, Some(data)))
  {
    if info.encrypted && Given(password) {
      var key := l.derive(password.value, SaltOf(data));
      SharedSaltDecrypts(l, data, data, password.value);
      var decrypted := DecryptWithKey(l, data, key);
      plain := if decrypted.Some? && zstd then l.decompress(decrypted.value) else decrypted;
    } else {
      plain := if zstd then l.decompress(data) else Some(data);
    }
  }

  /** While one chunk is decoded and written the next one is being loaded. */
  method MergeToDisk(l: Library, m: Manifest, load: string -> Option<Bytes>, password: Option<string>) returns (r: OnDisk)
    ensures r == DiskOutcome(l, m, Reference(password), Items(load, SortBy(m.chunks, InfoIndex())))
  {
    var ordered := SortBy(m.chunks, InfoIndex());
    ghost var items, k := Items(load, ordered), Reference(password);
    var zstd := m.compression == "zstd";
    var file, hashed: Bytes := [], [];
    var nextData: Option<Bytes> := None;
    assert items[..0] == [];
    for i := 0 to |ordered|
      invariant DecodeAll(l, zstd, k, items[..i]).complete
      invariant file == hashed == Concat(DecodeAll(l, zstd, k, items[..i]).parts)
      invariant nextData.Some? ==> i < |ordered| && nextData == items[i].data
    {
      var data := if nextData.Some? then nextData else load(ordered[i].chunkHash);
      if data.None? {
        DecodeStops(l, zstd, k, items, i);
        return Failed(Some(file));
      }
      var prefetch: Option<Bytes> := None;
      if i + 1 < |ordered| {
        prefetch := load(ordered[i + 1].chunkHash);
      }
      var plain := DecodeOwn(l, zstd, password, ordered[i], data.value);
      if plain.None? {
        DecodeStops(l, zstd, k, items, i);
        return Failed(Some(file));
      }
      DecodeNext(l, zstd, k, items, i);
      file := file + plain.value;
      hashed := hashed + plain.value;
      nextData := prefetch;
      if i + 1 < |ordered| && prefetch.None? {
        DecodeStops(l, zstd, k, items, i + 1);
        return Failed(Some(file));
      }
    }
    assert items[..|ordered|] == items;
    if l.hash(hashed) != m.fileHash {
      return Failed(None);
    }
    return Written(file);
  }

  // ---------------------------------------------------------------- stream

  function FirstSalt(items: seq<Item>): Option<Bytes> {
    if |items| == 0 then None
    else if items[0].info.encrypted && items[0].data.Some? then Some(SaltOf(items[0].data.value))
    else FirstSalt(items[1..])
  }

  function StreamKeying(l: Library, password: Option<string>, items: seq<Item>): Keying {
    if !Given(password) then NoKey
    else if FirstSalt(items).Some? then Fixed(l.derive(password.value, FirstSalt(items).value))
    else Own(password.value)
  }

  lemma {:induction false} FirstSaltConcat(a: seq<Item>, b: seq<Item>)
    ensures FirstSalt(a + b) == if FirstSalt(a).Some? then FirstSalt(a) else FirstSalt(b)
  {
    if |a| == 0 {
      assert a + b == b;
    } else {
      assert (a + b)[1..] == a[1..] + b;
      FirstSaltConcat(a[1..], b);
    }
  }

  lemma FirstSaltOne(item: Item)
    ensures FirstSalt([item]) == if item.info.encrypted && item.data.Some? then Some(SaltOf(item.data.value)) else None
  {
    assert [item][1..] == [];
  }

  lemma FirstSaltNext(items: seq<Item>, i: nat)
    requires i < |items|
    ensures FirstSalt(items[..i + 1]).Some? ==> FirstSalt(items) == FirstSalt(items[..i + 1])
    ensures FirstSalt(items[..i + 1]) ==
            if FirstSalt(items[..i]).None? && items[i].info.encrypted && items[i].data.Some?
            then Some(SaltOf(items[i].data.value)) else FirstSalt(items[..i])
  {
    FirstSaltKept(items, i + 1);
    assert items[..i + 1] == items[..i] + [items[i]];
    FirstSaltConcat(items[..i], [items[i]]);
    FirstSaltOne(items[i]);
  }

  lemma FirstSaltKept(items: seq<Item>, n: nat)
    requires n <= |items|
    ensures FirstSalt(items[..n]).Some? ==> FirstSalt(items) == FirstSalt(items[..n])
  {
    assert items == items[..n] + items[n..];
    FirstSaltConcat(items[..n], items[n..]);
  }

  /** Yields decoded chunks one by one; the key comes from the first encrypted chunk. */
  method StreamFile(l: Library, m: Manifest, load: string -> Option<Bytes>, password: Option<string>) returns (r: Decoded)
    ensures var items := Items(load, SortBy(m.chunks, InfoIndex()));
            r == DecodeAll(l, m.compression == "zstd", StreamKeying(l, password, items), items)
  {
    var ordered := SortBy(m.chunks, InfoIndex());
    ghost var items := Items(load, ordered);
    ghost var k := StreamKeying(l, password, items);
    var zstd := m.compression == "zstd";
    var yielded: seq<Bytes> := [];
    var key: Option<Bytes> := None;
    assert items[..0] == [];
    for i := 0 to |ordered|
      invariant DecodeAll(l, zstd, k, items[..i]) == Decoded(yielded, true)
      invariant key == KeyFrom(l, password, FirstSalt(items[..i]))
    {
      var data := load(ordered[i].chunkHash);
      if data.None? {
        DecodeStops(l, zstd, k, items, i);
        return Decoded(yielded, false);
      }
      FirstSaltNext(items, i);
      var plain: Option<Bytes>;
      if ordered[i].encrypted && Given(password) {
        if key.None? {
          key := Some(l.derive(password.value, SaltOf(data.value)));
        }
        plain := Plain(l, zstd, Fixed(key.value), Item(ordered[i], data));
      } else {
        plain := if zstd then l.decompress(data.value) else data;
      }
      assert plain == Plain(l, zstd, k, items[i]);
      if plain.None? {
        DecodeStops(l, zstd, k, items, i);
        return Decoded(yielded, false);
      }
      DecodeNext(l, zstd, k, items, i);
      yielded := yielded + [plain.value];
    }
    assert items[..|ordered|] == items;
    return Decoded(yielded, true);
  }

  function KeyFrom(l: Library, password: Option<string>, salt: Option<Bytes>): Option<Bytes> {
    if Given(password) && salt.Some? then Some(l.derive(password.value, salt.value)) else None
  }
}
