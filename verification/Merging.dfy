/** What the chunkers and the four mergers do together: the mergers agree, and each undoes the
    chunkers (backend/file_engine/chunker.py:305-388,441-567, backend/file_engine/pipeline.py:38-279). */
module Merging {
  import opened Seqs
  import opened Crypto
  import opened Chunker
  import opened Pipeline
  import LS = LocalStores
  import M = Merkle

  // ---------------------------------------------------------------- the mergers agree

  predicate Encrypted(item: Item) {
    item.info.encrypted && item.data.Some?
  }

  /** All encrypted chunks carry one salt. */
  predicate UniformSalt(items: seq<Item>) {
    forall i, j :: 0 <= i < j < |items| && Encrypted(items[i]) && Encrypted(items[j]) ==>
      SaltOf(items[i].data.value) == SaltOf(items[j].data.value)
  }

  lemma {:induction false} SamePlain(l: Library, zstd: bool, a: Keying, b: Keying, items: seq<Item>)
    requires forall i :: 0 <= i < |items| ==> Plain(l, zstd, a, items[i]) == Plain(l, zstd, b, items[i])
    ensures DecodeAll(l, zstd, a, items) == DecodeAll(l, zstd, b, items)
  {
    if |items| > 0 {
      SamePlain(l, zstd, a, b, items[..|items| - 1]);
    }
  }

  lemma OneKeyForAll(l: Library, zstd: bool, password: string, items: seq<Item>, i: nat)
    requires UniformSalt(items) && i < |items| && Encrypted(items[i])
    ensures DecodeAll(l, zstd, Fixed(l.derive(password, SaltOf(items[i].data.value))), items)
            == DecodeAll(l, zstd, Own(password), items)
  {
    var k := Fixed(l.derive(password, SaltOf(items[i].data.value)));
    forall j | 0 <= j < |items| ensures Plain(l, zstd, k, items[j]) == Plain(l, zstd, Own(password), items[j]) {
      if Encrypted(items[j]) {
        assert SaltOf(items[j].data.value) == SaltOf(items[i].data.value);
        SharedSaltDecrypts(l, items[j].data.value, items[i].data.value, password);
      }
    }
    SamePlain(l, zstd, k, Own(password), items);
  }

  lemma {:induction false} FirstSaltIsOne(items: seq<Item>) returns (i: nat)
    requires FirstSalt(items).Some?
    ensures i < |items| && Encrypted(items[i]) && FirstSalt(items) == Some(SaltOf(items[i].data.value))
  {
    if Encrypted(items[0]) {
      i := 0;
    } else {
      i := FirstSaltIsOne(items[1..]);
      i := i + 1;
    }
  }

  lemma FirstKeyingAgrees(l: Library, zstd: bool, password: Option<string>, items: seq<Item>)
    requires UniformSalt(items)
    ensures DecodeAll(l, zstd, FirstKeying(l, password, items), items) == DecodeAll(l, zstd, Reference(password), items)
  {
    if Given(password) && |items| > 0 && Encrypted(items[0]) {
      OneKeyForAll(l, zstd, password.value, items, 0);
    }
  }

  lemma StreamKeyingAgrees(l: Library, zstd: bool, password: Option<string>, items: seq<Item>)
    requires UniformSalt(items)
    ensures DecodeAll(l, zstd, StreamKeying(l, password, items), items) == DecodeAll(l, zstd, Reference(password), items)
  {
    if Given(password) && FirstSalt(items).Some? {
      var i := FirstSaltIsOne(items);
      OneKeyForAll(l, zstd, password.value, items, i);
    }
  }

  function InfosOf(items: seq<Item>): seq<ChunkInfo> {
    seq(|items|, i requires 0 <= i < |items| => items[i].info)
  }

  /** The items whose bytes a loader gives. */
  predicate LoadedBy(load: string -> Option<Bytes>, items: seq<Item>) {
    forall i :: 0 <= i < |items| ==> items[i].data == load(items[i].info.chunkHash)
  }

  lemma {:induction false} InsertInfos(x: Item, items: seq<Item>)
    ensures InfosOf(InsertBy(x, items, Index())) == InsertBy(x.info, InfosOf(items), InfoIndex())
  {
    if |items| > 0 {
      assert InfosOf(items)[1..] == InfosOf(items[1..]);
      InsertInfos(x, items[1..]);
      if Index()(x) <= Index()(items[0]) {
        assert InfosOf([x] + items) == [x.info] + InfosOf(items);
      } else {
        var rest := InsertBy(x, items[1..], Index());
        assert InfosOf([items[0]] + rest) == [items[0].info] + InfosOf(rest);
      }
    }
  }

  lemma {:induction false} SortInfos(items: seq<Item>)
    ensures InfosOf(SortBy(items, Index())) == SortBy(InfosOf(items), InfoIndex())
  {
    if |items| > 0 {
      assert InfosOf(items)[1..] == InfosOf(items[1..]);
      SortInfos(items[1..]);
      InsertInfos(items[0], SortBy(items[1..], Index()));
    }
  }

  /** Sorting pairs and sorting entries then loading give the same order. */
  lemma SortThenLoad(load: string -> Option<Bytes>, items: seq<Item>)
    requires LoadedBy(load, items)
    ensures SortBy(items, Index()) == Items(load, SortBy(InfosOf(items), InfoIndex()))
  {
    SortInfos(items);
    SortBySpec(items, Index());
    MultisetMembers(items, SortBy(items, Index()));
    var sorted := SortBy(items, Index());
    forall i | 0 <= i < |sorted| ensures sorted[i].data == load(sorted[i].info.chunkHash) {
      assert sorted[i] in items;
    }
    assert forall i :: 0 <= i < |sorted| ==> InfosOf(sorted)[i] == sorted[i].info;
  }

  lemma ZipUnzips(m: Manifest, datas: seq<Bytes>)
    requires |m.chunks| == |datas|
    ensures InfosOf(Zip(m.chunks, datas)) == m.chunks
  {
  }

  /** With one salt, the two list mergers and the two pipelines decode the same chunks to the same bytes
      and fail alike; `merge_chunks` only adds the chunk hash and Merkle root checks. */
  lemma MergersAgree(l: Library, m: Manifest, datas: seq<Bytes>, load: string -> Option<Bytes>, password: Option<string>)
    requires |m.chunks| == |datas| && LoadedBy(load, Zip(m.chunks, datas))
    requires UniformSalt(Ordered(m.chunks, datas))
    ensures var items, zstd := Ordered(m.chunks, datas), m.compression == "zstd";
            var sorted := Items(load, SortBy(m.chunks, InfoIndex()));
            var disk := DiskOutcome(l, m, Reference(password), sorted);
            var streamed := DecodeAll(l, zstd, StreamKeying(l, password, sorted), sorted);
            && DiskOutcome(l, m, DiskKeying(l, password, None, items), items) == disk
            && (disk.Written? <==> streamed.complete && l.hash(Concat(streamed.parts)) == m.fileHash)
            && (disk.Written? ==> disk.content == Concat(streamed.parts))
            && (Merged(l, m, datas, password).Ok? <==>
                disk.Written? && HashesMatch(l, items) && (m.merkleRoot == "" || M.Root(l.hashText, InfoHashes(items)) == m.merkleRoot))
            && (Merged(l, m, datas, password).Ok? ==> Merged(l, m, datas, password).value == disk.content)
  {
    ZipUnzips(m, datas);
    SortThenLoad(load, Zip(m.chunks, datas));
    var items, zstd := Ordered(m.chunks, datas), m.compression == "zstd";
    FirstKeyingAgrees(l, zstd, password, items);
    StreamKeyingAgrees(l, zstd, password, items);
  }

  // ---------------------------------------------------------------- what a merge verifies

  /** Every chunk has the hash its entry gives. */
  predicate ChunksVerify(l: Library, infos: seq<ChunkInfo>, datas: seq<Bytes>) {
    forall j :: 0 <= j < |infos| && j < |datas| ==> l.hash(datas[j]) == infos[j].chunkHash
  }

  lemma OrderedVerify(l: Library, infos: seq<ChunkInfo>, datas: seq<Bytes>)
    ensures HashesMatch(l, Ordered(infos, datas)) <==> ChunksVerify(l, infos, datas)
  {
    var items, sorted := Zip(infos, datas), Ordered(infos, datas);
    SortBySpec(items, Index());
    MultisetMembers(items, sorted);
    if HashesMatch(l, sorted) {
      forall j | 0 <= j < |infos| && j < |datas| ensures l.hash(datas[j]) == infos[j].chunkHash {
        assert items[j] in sorted;
        var i :| 0 <= i < |sorted| && sorted[i] == items[j];
      }
    }
    if ChunksVerify(l, infos, datas) {
      forall i | 0 <= i < |sorted| ensures l.hash(sorted[i].data.value) == sorted[i].info.chunkHash {
        assert sorted[i] in items;
        var j :| 0 <= j < |items| && items[j] == sorted[i];
      }
    }
  }

  /** `merge_chunks` succeeds if and only if every chunk has the hash of its entry, the root over the hashes in index
      order is the manifest's (when it has one), every chunk decodes, and the whole has the file's hash;
      the result is then the whole. */
  lemma MergeVerifies(l: Library, m: Manifest, datas: seq<Bytes>, password: Option<string>, result: Bytes)
    ensures var items := Ordered(m.chunks, datas);
            var d := DecodeAll(l, m.compression == "zstd", FirstKeying(l, password, items), items);
            Merged(l, m, datas, password) == Ok(result) <==>
              && ChunksVerify(l, m.chunks, datas)
              && (m.merkleRoot == "" || M.Root(l.hashText, InfoHashes(items)) == m.merkleRoot)
              && d.complete && result == Concat(d.parts) && l.hash(result) == m.fileHash
  {
    OrderedVerify(l, m.chunks, datas);
  }

  // ---------------------------------------------------------------- round trips

  ghost predicate GoodRandomness(p: Packing) {
    |p.salt| == SALT_SIZE && forall i :: |p.nonces(i)| == NONCE_SIZE
  }

  /** The keying opens what the packing sealed. */
  predicate Fits(l: Library, p: Packing, k: Keying) {
    p.encrypt ==>
      && p.key.Some? && |p.key.value| == KEY_SIZE
      && match k
         case NoKey => false
         case Own(password) => p.key.value == l.derive(password, p.salt)
         case Fixed(key) => p.key.value == key
  }

  lemma PlainOfPacked(l: Library, p: Packing, k: Keying, raws: seq<Bytes>, i: nat, info: ChunkInfo)
    requires Contract(l) && GoodRandomness(p) && Fits(l, p, k) && i < |raws| && info.encrypted == p.encrypt
    ensures PackAt(l, p, raws, i).Some?
    ensures Plain(l, true, k, Item(info, PackAt(l, p, raws, i))) == Some(raws[i])
    ensures p.encrypt ==> SaltOf(PackAt(l, p, raws, i).value) == p.salt
  {
    if p.encrypt {
      EncryptRoundTrip(l, l.compress(raws[i]), p.key.value, p.salt, p.nonces(i));
    }
  }

  lemma EveryChunkPacks(l: Library, p: Packing, k: Keying, raws: seq<Bytes>)
    requires Contract(l) && GoodRandomness(p) && Fits(l, p, k)
    ensures AllPacked(l, p, raws)
  {
    forall i | 0 <= i < |raws| ensures PackAt(l, p, raws, i).Some? {
      PlainOfPacked(l, p, k, raws, i, ChunkInfo(0, "", 0, p.encrypt));
    }
  }

  lemma {:induction false} DecodePointwise(l: Library, k: Keying, items: seq<Item>, raws: seq<Bytes>)
    requires |items| == |raws| && forall i :: 0 <= i < |items| ==> Plain(l, true, k, items[i]) == Some(raws[i])
    ensures DecodeAll(l, true, k, items) == Decoded(raws, true)
  {
    if |items| > 0 {
      var n := |items| - 1;
      DecodePointwise(l, k, items[..n], raws[..n]);
      assert raws == raws[..n] + [raws[n]];
    }
  }

  /** The pairs a chunker hands out. */
  function Pairs(l: Library, p: Packing, raws: seq<Bytes>): (items: seq<Item>)
    requires AllPacked(l, p, raws)
    ensures |items| == |raws|
  {
    var datas := PackedData(l, p, raws);
    Zip(Infos(l, p.encrypt, datas), datas)
  }

  lemma PairsDecode(l: Library, p: Packing, k: Keying, raws: seq<Bytes>)
    requires Contract(l) && GoodRandomness(p) && Fits(l, p, k)
    ensures AllPacked(l, p, raws)
    ensures DecodeAll(l, true, k, Pairs(l, p, raws)) == Decoded(raws, true)
  {
    EveryChunkPacks(l, p, k, raws);
    var items := Pairs(l, p, raws);
    forall i | 0 <= i < |raws| ensures Plain(l, true, k, items[i]) == Some(raws[i]) {
      PlainOfPacked(l, p, k, raws, i, items[i].info);
    }
    DecodePointwise(l, k, items, raws);
  }

  /** Sorting by index undoes any shuffle of the pairs. */
  lemma ShuffleSorts(l: Library, p: Packing, raws: seq<Bytes>, shuffled: seq<Item>)
    requires AllPacked(l, p, raws) && multiset(shuffled) == multiset(Pairs(l, p, raws))
    ensures SortBy(shuffled, Index()) == Pairs(l, p, raws)
  {
    var items := Pairs(l, p, raws);
    forall i | 0 <= i < |items| ensures Index()(items[i]) == i {
    }
    SortBySpec(shuffled, Index());
    SortedUnique(items, SortBy(shuffled, Index()), Index());
  }

  function DatasOf(items: seq<Item>): seq<Bytes>
    requires forall i :: 0 <= i < |items| ==> items[i].data.Some?
  {
    seq(|items|, i requires 0 <= i < |items| => items[i].data.value)
  }

  lemma ShuffledLoaded(l: Library, p: Packing, raws: seq<Bytes>, shuffled: seq<Item>)
    requires AllPacked(l, p, raws) && multiset(shuffled) == multiset(Pairs(l, p, raws))
    ensures forall i :: 0 <= i < |shuffled| ==> shuffled[i].data.Some?
    ensures Zip(InfosOf(shuffled), DatasOf(shuffled)) == shuffled
    ensures Ordered(InfosOf(shuffled), DatasOf(shuffled)) == Pairs(l, p, raws)
  {
    MultisetMembers(shuffled, Pairs(l, p, raws));
    forall i | 0 <= i < |shuffled| ensures shuffled[i].data.Some? {
      assert shuffled[i] in Pairs(l, p, raws);
    }
    ShuffleSorts(l, p, raws, shuffled);
    assert Zip(InfosOf(shuffled), DatasOf(shuffled)) == shuffled;
  }

  lemma PairsPassChecks(l: Library, p: Packing, raws: seq<Bytes>)
    requires AllPacked(l, p, raws)
    ensures var items := Pairs(l, p, raws);
            HashesMatch(l, items) && InfoHashes(items) == Hashes(l, PackedData(l, p, raws))
  {
  }

  /** The chunks of any file and size decode, in any order of the pairs, to what `FileChunks` read. */
  lemma DiskRoundTrip(l: Library, file: Bytes, size: int, p: Packing, k: Keying)
    requires Contract(l) && GoodRandomness(p) && Fits(l, p, k) && (size != 0 || file == [])
    ensures var raws := FileChunks(file, size);
            && AllPacked(l, p, raws)
            && var m := ManifestOf(l, file, size, p.encrypt, PackedData(l, p, raws));
               forall chunks :: DiskOutcome(l, m.(chunks := chunks), k, Pairs(l, p, raws)) == Written(file)
  {
    PairsDecode(l, p, k, FileChunks(file, size));
    FileChunksConcat(file, size);
  }

  /** The keyings of the list mergers fit when the reader has the password of an encrypted file. */
  lemma ReaderFits(l: Library, p: Packing, password: Option<string>, raws: seq<Bytes>)
    requires Contract(l) && GoodRandomness(p)
    requires p.encrypt ==> Given(password) && p.key == Some(l.derive(password.value, p.salt))
    ensures AllPacked(l, p, raws)
    ensures var items := Pairs(l, p, raws);
            Fits(l, p, FirstKeying(l, password, items)) && Fits(l, p, Reference(password)) && Fits(l, p, StreamKeying(l, password, items))
  {
    EveryChunkPacks(l, p, Reference(password), raws);
    var items := Pairs(l, p, raws);
    if p.encrypt {
      forall i | 0 <= i < |items| ensures Encrypted(items[i]) && SaltOf(items[i].data.value) == p.salt {
        PlainOfPacked(l, p, Reference(password), raws, i, items[i].info);
      }
      if FirstSalt(items).Some? {
        var i := FirstSaltIsOne(items);
      }
    }
  }

  /** `chunk_file` followed by `merge_chunks` or `merge_chunks_to_disk` gives back the file, for any
      order of the pairs, empty file included, given the upload password or, for a file that is not
      encrypted, any password. A chunk size of 0 is the one exception. */
  lemma ChunkMergeRoundTrip(l: Library, file: Bytes, size: int, password: Option<string>, salt: Bytes, nonces: nat -> Bytes,
                            reader: Option<string>, shuffled: seq<Item>)
    requires Contract(l) && |salt| == SALT_SIZE && (forall i :: |nonces(i)| == NONCE_SIZE)
    requires size != 0 || file == []
    requires password.None? || (Given(password) && reader == password)
    requires var c := ChunkedFile(l, file, size, password, None, salt, nonces);
             c.Ok? ==> multiset(shuffled) == multiset(Zip(c.value.manifest.chunks, c.value.datas))
    ensures var c := ChunkedFile(l, file, size, password, None, salt, nonces);
            && c.Ok?
            && (forall i :: 0 <= i < |shuffled| ==> shuffled[i].data.Some?)
            && var m, datas := c.value.manifest.(chunks := InfosOf(shuffled)), DatasOf(shuffled);
               var items := Ordered(m.chunks, datas);
               && Merged(l, m, datas, reader) == Ok(file)
               && DiskOutcome(l, m, DiskKeying(l, reader, None, items), items) == Written(file)
  {
    var p, raws := PackingFor(l, password, None, salt, nonces), FileChunks(file, size);
    ReaderFits(l, p, reader, raws);
    ShuffledLoaded(l, p, raws, shuffled);
    PairsPassChecks(l, p, raws);
    DiskRoundTrip(l, file, size, p, FirstKeying(l, reader, Pairs(l, p, raws)));
    MergedIsWritten(l, file, size, p, reader, shuffled);
  }

  lemma MergedIsWritten(l: Library, file: Bytes, size: int, p: Packing, reader: Option<string>, shuffled: seq<Item>)
    requires var raws := FileChunks(file, size);
             && AllPacked(l, p, raws)
             && HashesMatch(l, Pairs(l, p, raws)) && InfoHashes(Pairs(l, p, raws)) == Hashes(l, PackedData(l, p, raws))
             && (forall i :: 0 <= i < |shuffled| ==> shuffled[i].data.Some?)
             && Ordered(InfosOf(shuffled), DatasOf(shuffled)) == Pairs(l, p, raws)
             && DiskOutcome(l, ManifestOf(l, file, size, p.encrypt, PackedData(l, p, raws)).(chunks := InfosOf(shuffled)),
                            FirstKeying(l, reader, Pairs(l, p, raws)), Pairs(l, p, raws)) == Written(file)
    ensures Merged(l, ManifestOf(l, file, size, p.encrypt, PackedData(l, p, FileChunks(file, size))).(chunks := InfosOf(shuffled)),
                   DatasOf(shuffled), reader) == Ok(file)
  {
  }

  /** The same with a raw AES key: only `merge_chunks_to_disk` takes one. */
  lemma KeyRoundTrip(l: Library, file: Bytes, size: int, key: Bytes, salt: Bytes, nonces: nat -> Bytes, shuffled: seq<Item>)
    requires Contract(l) && |salt| == SALT_SIZE && (forall i :: |nonces(i)| == NONCE_SIZE)
    requires (size != 0 || file == []) && |key| == KEY_SIZE
    requires var c := ChunkedFile(l, file, size, None, Some(key), salt, nonces);
             c.Ok? ==> multiset(shuffled) == multiset(Zip(c.value.manifest.chunks, c.value.datas))
    ensures var c := ChunkedFile(l, file, size, None, Some(key), salt, nonces);
            && c.Ok?
            && (forall i :: 0 <= i < |shuffled| ==> shuffled[i].data.Some?)
            && var m := c.value.manifest.(chunks := InfosOf(shuffled));
               var items := Ordered(m.chunks, DatasOf(shuffled));
               DiskOutcome(l, m, DiskKeying(l, None, Some(key), items), items) == Written(file)
  {
    var p, raws := PackingFor(l, None, Some(key), salt, nonces), FileChunks(file, size);
    EveryChunkPacks(l, p, Fixed(key), raws);
    ShuffledLoaded(l, p, raws, shuffled);
    DiskRoundTrip(l, file, size, p, Fixed(key));
  }

  /** With chunk size 0 a non-empty file is lost: it has no chunks, and merging fails unless the empty
      string has the hash of the file. */
  lemma ZeroChunkSize(l: Library, file: Bytes, p: Packing, k: Keying)
    requires file != []
    ensures ChunkedWith(l, file, 0, p).Ok? && ChunkedWith(l, file, 0, p).value.datas == []
    ensures var m := ChunkedWith(l, file, 0, p).value.manifest;
            DiskOutcome(l, m, k, []) == if l.hash([]) == l.hash(file) then Written([]) else Failed(None)
  {
    assert FileChunks(file, 0) == [];
    assert PackedData(l, p, []) == [];
  }

  /** An empty password asks for encryption but gives no key: every file with a chunk is refused. */
  lemma EmptyPassword(l: Library, file: Bytes, size: int, salt: Bytes, nonces: nat -> Bytes)
    ensures ChunkedFile(l, file, size, Some(""), None, salt, nonces).Ok? <==> size == 0 || file == []
  {
    var p := PackingFor(l, Some(""), None, salt, nonces);
    if FileChunks(file, size) != [] {
      assert PackAt(l, p, FileChunks(file, size), 0).None?;
    }
  }

  // ---------------------------------------------------------------- round trip through a store

  ghost predicate ChunkCollision(l: Library, datas: seq<Bytes>) {
    exists i, j :: 0 <= i < j < |datas| && datas[i] != datas[j] && l.hash(datas[i]) == l.hash(datas[j])
  }

  lemma {:induction false} StoredHas(l: Library, was: map<string, Bytes>, datas: seq<Bytes>)
    requires !ChunkCollision(l, datas)
    ensures forall i :: 0 <= i < |datas| ==> LS.Loaded(Stored(l, was, datas), l.hash(datas[i])) == Some(datas[i])
  {
    if |datas| > 0 {
      var n := |datas| - 1;
      var front := datas[..n];
      assert !ChunkCollision(l, front);
      StoredHas(l, was, front);
      forall i | 0 <= i < |datas| ensures LS.Loaded(Stored(l, was, datas), l.hash(datas[i])) == Some(datas[i]) {
        if i < n {
          assert front[i] == datas[i];
        }
      }
    }
  }

  lemma InfosSort(l: Library, p: Packing, raws: seq<Bytes>, shuffled: seq<ChunkInfo>)
    requires AllPacked(l, p, raws) && multiset(shuffled) == multiset(Infos(l, p.encrypt, PackedData(l, p, raws)))
    ensures SortBy(shuffled, InfoIndex()) == Infos(l, p.encrypt, PackedData(l, p, raws))
  {
    var infos := Infos(l, p.encrypt, PackedData(l, p, raws));
    forall i | 0 <= i < |infos| ensures InfoIndex()(infos[i]) == i {
    }
    SortBySpec(shuffled, InfoIndex());
    SortedUnique(infos, SortBy(shuffled, InfoIndex()), InfoIndex());
  }

  lemma StoreGivesPairs(l: Library, p: Packing, raws: seq<Bytes>, was: map<string, Bytes>, load: string -> Option<Bytes>)
    requires AllPacked(l, p, raws) && !ChunkCollision(l, PackedData(l, p, raws))
    requires forall h :: load(h) == LS.Loaded(Stored(l, was, PackedData(l, p, raws)), h)
    ensures Items(load, Infos(l, p.encrypt, PackedData(l, p, raws))) == Pairs(l, p, raws)
  {
    var datas := PackedData(l, p, raws);
    StoredHas(l, was, datas);
    var items := Items(load, Infos(l, p.encrypt, datas));
    forall i | 0 <= i < |raws| ensures items[i] == Pairs(l, p, raws)[i] {
      assert load(l.hash(datas[i])) == Some(datas[i]);
    }
  }

  /** `pipeline_chunk_and_store` into any store, then `pipeline_merge_to_disk` or
      `pipeline_stream_file` from it, gives back the file for any order of the manifest's entries, or
      two different chunks of the file have one hash. */
  lemma PipelineRoundTrip(l: Library, file: Bytes, size: Option<int>, password: Option<string>, salt: Bytes,
                          nonces: nat -> Bytes, reader: Option<string>, was: map<string, Bytes>,
                          load: string -> Option<Bytes>, shuffled: seq<ChunkInfo>)
    requires Contract(l) && |salt| == SALT_SIZE && (forall i :: |nonces(i)| == NONCE_SIZE)
    requires size != Some(0) || file == []
    requires Given(password) ==> reader == password
    requires var c := ChunkedByPipeline(l, file, size, password, salt, nonces);
             c.Ok? ==> && (forall h :: load(h) == LS.Loaded(Stored(l, was, c.value.datas), h))
                       && multiset(shuffled) == multiset(c.value.manifest.chunks)
    ensures var c := ChunkedByPipeline(l, file, size, password, salt, nonces);
            && c.Ok?
            && (ChunkCollision(l, c.value.datas) ||
                var m, items := c.value.manifest.(chunks := shuffled), Items(load, SortBy(shuffled, InfoIndex()));
                var streamed := DecodeAll(l, true, StreamKeying(l, reader, items), items);
                && DiskOutcome(l, m, Reference(reader), items) == Written(file)
                && streamed == Decoded(FileChunks(file, c.value.manifest.chunkSize), true)
                && Concat(streamed.parts) == file)
  {
    var chunkSize := ChunkSizeFor(file, size);
    var p, raws := PipelinePacking(l, password, salt, nonces), FileChunks(file, chunkSize);
    ReaderFits(l, p, reader, raws);
    var datas := PackedData(l, p, raws);
    if !ChunkCollision(l, datas) {
      InfosSort(l, p, raws, shuffled);
      StoreGivesPairs(l, p, raws, was, load);
      DiskRoundTrip(l, file, chunkSize, p, Reference(reader));
      PairsDecode(l, p, StreamKeying(l, reader, Pairs(l, p, raws)), raws);
      FileChunksConcat(file, chunkSize);
    }
  }
}
