/** Reed-Solomon sharding of chunks and the two-pass shard collection
    (backend/strategies/erasure.py:94-281).

    The coding library is a parameter under the contract that any k shards of distinct index, in any
    order, give back the k blocks. SHA-256 is a parameter `H` that is not assumed injective. */
module Erasure {
  import opened Seqs
  import opened LocalStores
  import P = Polynomial

  /** zfec.Encoder.encode and zfec.Decoder.decode for one (k, n). */
  datatype Code = Code(encode: seq<Bytes> -> seq<Bytes>, decode: (seq<Bytes>, seq<nat>) -> seq<Bytes>)

  predicate ShardIndices(idx: seq<nat>, k: nat, n: nat) {
    |idx| == k && Distinct(idx) && forall i :: 0 <= i < |idx| ==> idx[i] < n
  }

  function Pick(shards: seq<Bytes>, idx: seq<nat>): seq<Bytes>
    requires forall i :: 0 <= i < |idx| ==> idx[i] < |shards|
  {
    seq(|idx|, i requires 0 <= i < |idx| => shards[idx[i]])
  }

  ghost predicate AnyKDecode(c: Code, k: nat, n: nat) {
    forall blocks: seq<Bytes>, length: nat :: P.Uniform(blocks, k, length) ==> DecodesBack(c, k, n, blocks)
  }

  ghost predicate DecodesBack(c: Code, k: nat, n: nat, blocks: seq<Bytes>) {
    && |c.encode(blocks)| == n
    && forall idx: seq<nat> :: ShardIndices(idx, k, n) ==> c.decode(Pick(c.encode(blocks), idx), idx) == blocks
  }

  datatype Shard = Shard(shardIndex: nat, shardHash: string, size: nat, data: Option<Bytes>)

  datatype EncodedChunk = EncodedChunk(chunkHash: string, chunkSize: nat, k: nat, n: nat, shards: seq<Shard>)

  // ---------------------------------------------------------------- encode

  function BlockSize(size: nat, k: nat): nat
    requires k > 0
  {
    (size + k - 1) / k
  }

  function Zeros(n: nat): Bytes {
    seq(n, i => 0)
  }

  /** Right-padded with zeros to k equal blocks. */
  function Padded(chunk: Bytes, k: nat): (p: Bytes)
    requires k > 0
    ensures |p| == BlockSize(|chunk|, k) * k && chunk <= p
  {
    BlockSizeBound(|chunk|, k);
    chunk + Zeros(BlockSize(|chunk|, k) * k - |chunk|)
  }

  lemma BlockSizeBound(size: nat, k: nat)
    requires k > 0
    ensures BlockSize(size, k) * k >= size
  {
    var t := size + k - 1;
    assert t == (t / k) * k + t % k;
  }

  /** Consecutive slices of `length` bytes. */
  function Slices(data: Bytes, length: nat, k: nat): (blocks: seq<Bytes>)
    requires |data| == length * k
    ensures P.Uniform(blocks, k, length)
  {
    seq(k, i requires 0 <= i < k => SliceAt(data, length, k, i))
  }

  function SliceAt(data: Bytes, length: nat, k: nat, i: nat): (slice: Bytes)
    requires |data| == length * k && i < k
    ensures |slice| == length
  {
    SliceBound(length, k, i);
    data[i * length..(i + 1) * length]
  }

  lemma SliceBound(length: nat, k: nat, i: nat)
    requires i < k
    ensures 0 <= i * length <= (i + 1) * length <= length * k && (i + 1) * length - i * length == length
  {
  }

  function ShardsOf(H: Bytes -> string, raw: seq<Bytes>): seq<Shard> {
    seq(|raw|, i requires 0 <= i < |raw| => Shard(i, H(raw[i]), |raw[i]|, Some(raw[i])))
  }

  function RawShards(c: Code, chunk: Bytes, k: nat): seq<Bytes>
    requires k > 0
  {
    c.encode(Slices(Padded(chunk, k), BlockSize(|chunk|, k), k))
  }

  function Encoded(H: Bytes -> string, c: Code, chunk: Bytes, k: nat, n: nat): Result<EncodedChunk> {
    if !(1 <= k <= n <= 256) then Err("invalid (k, n)")
    else if |chunk| == 0 then Err("empty chunk")
    else Ok(EncodedChunk(H(chunk), |chunk|, k, n, ShardsOf(H, RawShards(c, chunk, k))))
  }

  method EncodeChunk(H: Bytes -> string, c: Code, chunk: Bytes, k: nat, n: nat) returns (r: Result<EncodedChunk>)
    ensures r == Encoded(H, c, chunk, k, n)
  {
    if !(1 <= k <= n <= 256) {
      return Err("invalid (k, n)");
    }
    if |chunk| == 0 {
      return Err("empty chunk");
    }
    var blockSize := BlockSize(|chunk|, k);
    var padded := Padded(chunk, k);
    var raw := c.encode(Slices(padded, blockSize, k));
    var shards: seq<Shard> := [];
    for idx := 0 to |raw|
      invariant shards == ShardsOf(H, raw)[..idx]
    {
      shards := shards + [Shard(idx, H(raw[idx]), |raw[idx]|, Some(raw[idx]))];
    }
    assert shards == ShardsOf(H, raw);
    return Ok(EncodedChunk(H(chunk), |chunk|, k, n, shards));
  }

  /** Encoding is refused exactly for an impossible (k, n) or an empty chunk; otherwise every shard is described by its
      position, its hash and its size. */
  lemma EncodesExactly(H: Bytes -> string, c: Code, chunk: Bytes, k: nat, n: nat)
    ensures var r := Encoded(H, c, chunk, k, n);
            && (r.Ok? <==> 1 <= k && k <= n && n <= 256 && chunk != [])
            && (r.Ok? ==>
                  && r.value.chunkHash == H(chunk) && r.value.chunkSize == |chunk| && r.value.k == k && r.value.n == n
                  && forall i :: 0 <= i < |r.value.shards| ==>
                       exists data :: r.value.shards[i] == Shard(i, H(data), |data|, Some(data)))
  {
    var r := Encoded(H, c, chunk, k, n);
    if r.Ok? {
      var raw := RawShards(c, chunk, k);
      forall i | 0 <= i < |r.value.shards| ensures exists data :: r.value.shards[i] == Shard(i, H(data), |data|, Some(data)) {
        assert r.value.shards[i] == Shard(i, H(raw[i]), |raw[i]|, Some(raw[i]));
      }
    }
  }

  // ---------------------------------------------------------------- decode

  predicate AllLoaded(shards: seq<Shard>) {
    forall i :: 0 <= i < |shards| ==> shards[i].data.Some?
  }

  function BlockData(shards: seq<Shard>): seq<Bytes>
    requires AllLoaded(shards)
  {
    seq(|shards|, i requires 0 <= i < |shards| => shards[i].data.value)
  }

  function BlockIndices(shards: seq<Shard>): seq<nat> {
    seq(|shards|, i requires 0 <= i < |shards| => shards[i].shardIndex)
  }

  /** `full[:chunk_size]` */
  function Trim(full: Bytes, size: nat): Bytes {
    if size <= |full| then full[..size] else full
  }

  function DecodeChunk(c: Code, shards: seq<Shard>, chunkSize: nat, k: nat, n: nat): Result<Bytes> {
    if |shards| < k then Err("too few shards")
    else
      var selected := shards[..k];
      if !AllLoaded(selected) then Err("shard without data")
      else if !(1 <= k <= n <= 256) then Err("invalid (k, n)")
      else Ok(Trim(Concat(c.decode(BlockData(selected), BlockIndices(selected))), chunkSize))
  }

  /** Decoding is refused exactly for too few shards, an impossible (k, n), or when one of the first k has no bytes; it
      never returns more than the chunk's size. */
  lemma DecodesExactly(c: Code, shards: seq<Shard>, chunkSize: nat, k: nat, n: nat)
    ensures var r := DecodeChunk(c, shards, chunkSize, k, n);
            && (r.Ok? <==> k <= |shards| && 1 <= k && k <= n && n <= 256 && forall i :: 0 <= i < k ==> shards[i].data.Some?)
            && (r.Ok? ==> |r.value| <= chunkSize)
  {
    if k <= |shards| {
      assert AllLoaded(shards[..k]) <==> forall i :: 0 <= i < k ==> shards[i].data.Some? by {
        if AllLoaded(shards[..k]) {
          forall i | 0 <= i < k ensures shards[i].data.Some? {
            assert shards[..k][i].data.Some?;
          }
        }
      }
    }
  }

  lemma {:induction false} ConcatSlices(data: Bytes, length: nat, k: nat)
    requires |data| == length * k
    ensures Concat(Slices(data, length, k)) == data
  {
    if k > 0 {
      OneBlockLess(length, k);
      var front, last := data[..length * (k - 1)], SliceAt(data, length, k, k - 1);
      ConcatSlices(front, length, k - 1);
      FrontSlices(data, length, k);
      ConcatSnoc(Slices(front, length, k - 1), last);
      LastSlice(data, length, k);
    }
  }

  lemma OneBlockLess(length: nat, k: nat)
    requires k > 0
    ensures 0 <= length * (k - 1) <= length * k && length * (k - 1) + length == length * k
    ensures (k - 1) * length == length * (k - 1) && k * length == length * k
  {
  }

  lemma LastSlice(data: Bytes, length: nat, k: nat)
    requires k > 0 && |data| == length * k
    requires 0 <= length * (k - 1) <= |data|
    ensures data[..length * (k - 1)] + SliceAt(data, length, k, k - 1) == data
  {
    OneBlockLess(length, k);
    var at := length * (k - 1);
    assert SliceAt(data, length, k, k - 1) == data[at..|data|];
    assert data == data[..at] + data[at..|data|];
  }

  lemma FrontSlices(data: Bytes, length: nat, k: nat)
    requires k > 0 && |data| == length * k
    requires 0 <= length * (k - 1) <= |data|
    ensures Slices(data, length, k) == Slices(data[..length * (k - 1)], length, k - 1) + [SliceAt(data, length, k, k - 1)]
  {
    var front := data[..length * (k - 1)];
    forall i | 0 <= i < k - 1 ensures Slices(data, length, k)[i] == Slices(front, length, k - 1)[i] {
      FrontSlice(data, length, k, i);
    }
  }

  lemma FrontSlice(data: Bytes, length: nat, k: nat, i: nat)
    requires i < k - 1 && |data| == length * k
    requires 0 <= length * (k - 1) <= |data|
    ensures SliceAt(data[..length * (k - 1)], length, k - 1, i) == SliceAt(data, length, k, i)
  {
    SliceBound(length, k - 1, i);
    SliceBound(length, k, i);
    var front := data[..length * (k - 1)];
    assert front[i * length..(i + 1) * length] == data[i * length..(i + 1) * length];
  }

  /** Any k of the encoder's shards of distinct index, in any order, decode to the chunk, for every
      valid (k, n) and every chunk length. */
  lemma AnyKShardsDecode(H: Bytes -> string, c: Code, chunk: Bytes, k: nat, n: nat, idx: seq<nat>)
    requires 1 <= k <= n <= 256 && |chunk| > 0 && AnyKDecode(c, k, n) && ShardIndices(idx, k, n)
    ensures Encoded(H, c, chunk, k, n).Ok? && |Encoded(H, c, chunk, k, n).value.shards| == n
    ensures var e := Encoded(H, c, chunk, k, n).value;
            DecodeChunk(c, Select(e.shards, idx), e.chunkSize, k, n) == Ok(chunk)
  {
    var e := Encoded(H, c, chunk, k, n).value;
    var blocks := Slices(Padded(chunk, k), BlockSize(|chunk|, k), k);
    assert DecodesBack(c, k, n, blocks);
    var raw := c.encode(blocks);
    var selected := Select(e.shards, idx);
    assert selected[..k] == selected;
    assert BlockData(selected) == Pick(raw, idx);
    assert BlockIndices(selected) == idx;
    ConcatSlices(Padded(chunk, k), BlockSize(|chunk|, k), k);
    assert Padded(chunk, k)[..|chunk|] == chunk;
  }

  function Select(shards: seq<Shard>, idx: seq<nat>): seq<Shard>
    requires forall i :: 0 <= i < |idx| ==> idx[i] < |shards|
  {
    seq(|idx|, i requires 0 <= i < |idx| => shards[idx[i]])
  }

  // ---------------------------------------------------------------- fetch and decode

  datatype ShardInfo = ShardInfo(shardIndex: nat, shardHash: string, size: nat)

  datatype ChunkInfo = ChunkInfo(chunkHash: string, size: nat, shards: seq<ShardInfo>)

  /** What one source has for the shard at each position of a chunk's metadata. */
  datatype Answers = Answers(H: Bytes -> string, metas: seq<ShardInfo>, data: seq<Option<Bytes>>)
  {
    /** `data is not None and verify_shard(data, sm.shard_hash)` */
    predicate Good(p: nat) {
      p < |metas| && p < |data| && data[p].Some? && H(data[p].value) == metas[p].shardHash
    }

    /** The positions of `ps` that are good, or those that are not. */
    function Keep(ps: seq<nat>, want: bool): seq<nat> {
      if |ps| == 0 then [] else (if Good(ps[0]) == want then [ps[0]] else []) + Keep(ps[1..], want)
    }

    /** How many positions are tried until `need` good ones are found. */
    function Asked(ps: seq<nat>, need: nat): (m: nat)
      ensures m <= |ps|
    {
      if |ps| == 0 || need == 0 then 0 else 1 + Asked(ps[1..], if Good(ps[0]) then need - 1 else need)
    }

    function InHand(ps: seq<nat>): seq<Shard>
      requires forall i :: 0 <= i < |ps| ==> ps[i] < |metas| && ps[i] < |data|
    {
      seq(|ps|, i requires 0 <= i < |ps| =>
        var p := ps[i]; Shard(metas[p].shardIndex, metas[p].shardHash, metas[p].size, data[p]))
    }

    lemma {:induction false} KeepConcat(ps: seq<nat>, qs: seq<nat>, want: bool)
      ensures Keep(ps + qs, want) == Keep(ps, want) + Keep(qs, want)
    {
      if |ps| == 0 {
        assert ps + qs == qs;
      } else {
        assert (ps + qs)[1..] == ps[1..] + qs;
        KeepConcat(ps[1..], qs, want);
      }
    }

    lemma KeepNext(ps: seq<nat>, i: nat, want: bool)
      requires i < |ps|
      ensures Keep(ps[..i + 1], want) == Keep(ps[..i], want) + if Good(ps[i]) == want then [ps[i]] else []
    {
      assert ps[..i + 1] == ps[..i] + [ps[i]];
      KeepConcat(ps[..i], [ps[i]], want);
      assert [ps[i]][1..] == [];
    }

    lemma {:induction false} KeepMembers(ps: seq<nat>, want: bool)
      ensures forall p :: p in Keep(ps, want) <==> p in ps && Good(p) == want
      ensures Distinct(ps) ==> Distinct(Keep(ps, want))
      ensures |Keep(ps, want)| <= |ps|
    {
      if |ps| > 0 {
        KeepMembers(ps[1..], want);
        assert ps == [ps[0]] + ps[1..];
        if Distinct(ps) {
          assert ps[0] !in ps[1..];
        }
      }
    }

    lemma AskedNext(ps: seq<nat>, i: nat, need: nat)
      requires i < |ps| && need > 0
      ensures Asked(ps[i..], need) == 1 + Asked(ps[i + 1..], if Good(ps[i]) then need - 1 else need)
    {
      assert ps[i..][1..] == ps[i + 1..];
    }

    lemma {:induction false} AskedSpec(ps: seq<nat>, need: nat)
      ensures var got, all := |Keep(ps[..Asked(ps, need)], true)|, |Keep(ps, true)|;
              got == if need <= all then need else all
    {
      if |ps| > 0 && need > 0 {
        var rest := if Good(ps[0]) then need - 1 else need;
        AskedSpec(ps[1..], rest);
        var m := Asked(ps[1..], rest);
        assert ps[..m + 1][0] == ps[0] && ps[..m + 1][1..] == ps[1..][..m];
      }
    }
  }

  function Positions(n: nat): seq<nat> {
    seq(n, i => i)
  }

  function LocalAnswers(H: Bytes -> string, metas: seq<ShardInfo>, chunks: map<string, Bytes>): Answers {
    Answers(H, metas, seq(|metas|, p requires 0 <= p < |metas| => Loaded(chunks, metas[p].shardHash)))
  }

  /** The positions for which peers are asked: none when k good shards are local. */
  function AskedOfPeers(local: Answers, peer: Answers, k: nat): seq<nat> {
    var all := Positions(|local.metas|);
    var have := |local.Keep(all, true)|;
    if have >= k then []
    else
      var missing := local.Keep(all, false);
      missing[..peer.Asked(missing, k - have)]
  }

  predicate Within(ps: seq<nat>, a: Answers) {
    forall i :: 0 <= i < |ps| ==> ps[i] < |a.metas| && ps[i] < |a.data|
  }

  lemma GoodWithin(a: Answers, ps: seq<nat>)
    ensures Within(a.Keep(ps, true), a)
  {
    a.KeepMembers(ps, true);
    forall i | 0 <= i < |a.Keep(ps, true)| ensures a.Good(a.Keep(ps, true)[i]) {
      assert a.Keep(ps, true)[i] in a.Keep(ps, true);
    }
  }

  function LocalPicks(local: Answers, k: nat): seq<nat> {
    var good := local.Keep(Positions(|local.metas|), true);
    if |good| > k then good[..k] else good
  }

  function PeerPicks(local: Answers, peer: Answers, k: nat): seq<nat> {
    peer.Keep(AskedOfPeers(local, peer, k), true)
  }

  /** The shards the two passes collect. */
  function Collected(local: Answers, peer: Answers, k: nat): seq<Shard> {
    GoodWithin(local, Positions(|local.metas|));
    GoodWithin(peer, AskedOfPeers(local, peer, k));
    local.InHand(LocalPicks(local, k)) + peer.InHand(PeerPicks(local, peer, k))
  }

  function Checked(H: Bytes -> string, c: Code, info: ChunkInfo, k: nat, n: nat, collected: seq<Shard>): Result<Bytes> {
    if |collected| < k then Err("unrecoverable")
    else
      var r := DecodeChunk(c, collected[..k], info.size, k, n);
      if r.Err? then r
      else if H(r.value) != info.chunkHash then Err("hash mismatch")
      else r
  }

  /** Whatever the metadata, the store and the peers hold, returned bytes match the chunk hash. */
  function Fetched(c: Code, info: ChunkInfo, k: nat, n: nat, local: Answers, peer: Answers): (r: Result<Bytes>)
    ensures r.Ok? ==> local.H(r.value) == info.chunkHash
  {
    if |info.shards| == 0 then Err("no shard metadata")
    else Checked(local.H, c, info, k, n, Collected(local, peer, k))
  }

  /** The store after the good peer answers of `ps` were cached, first to last. */
  function Cached(chunks: map<string, Bytes>, peer: Answers, ps: seq<nat>): map<string, Bytes>
    requires Within(ps, peer) && forall i :: 0 <= i < |ps| ==> peer.data[ps[i]].Some?
  {
    if |ps| == 0 then chunks
    else
      var last := ps[|ps| - 1];
      Cached(chunks, peer, ps[..|ps| - 1])[peer.metas[last].shardHash := peer.data[last].value]
  }

  lemma CacheNext(chunks: map<string, Bytes>, peer: Answers, ps: seq<nat>, p: nat)
    requires Within(ps, peer) && forall i :: 0 <= i < |ps| ==> peer.data[ps[i]].Some?
    requires p < |peer.metas| && p < |peer.data| && peer.data[p].Some?
    ensures Within(ps + [p], peer)
    ensures Cached(chunks, peer, ps + [p]) == Cached(chunks, peer, ps)[peer.metas[p].shardHash := peer.data[p].value]
  {
    assert (ps + [p])[..|ps|] == ps;
  }

  predicate Usable(a: Answers, ps: seq<nat>) {
    && Within(ps, a)
    && forall i :: 0 <= i < |ps| ==> a.Good(ps[i])
  }

  lemma KeepUsable(a: Answers, ps: seq<nat>)
    ensures Usable(a, a.Keep(ps, true))
  {
    a.KeepMembers(ps, true);
    forall i | 0 <= i < |a.Keep(ps, true)| ensures a.Good(a.Keep(ps, true)[i]) {
      assert a.Keep(ps, true)[i] in a.Keep(ps, true);
    }
  }

  lemma HandNext(a: Answers, ps: seq<nat>, p: nat)
    requires Within(ps, a) && p < |a.metas| && p < |a.data|
    ensures Within(ps + [p], a)
    ensures a.InHand(ps + [p]) == a.InHand(ps) + [Shard(a.metas[p].shardIndex, a.metas[p].shardHash, a.metas[p].size, a.data[p])]
  {
  }

  /** The peer pass after `i` positions: what is in hand and what is cached. */
  predicate PassAt(a: Answers, ps: seq<nat>, i: nat, collected: seq<Shard>, was: map<string, Bytes>, now: map<string, Bytes>) {
    && i <= |ps|
    && Usable(a, a.Keep(ps[..i], true))
    && collected == a.InHand(a.Keep(ps[..i], true))
    && now == Cached(was, a, a.Keep(ps[..i], true))
  }

  lemma PassStarts(a: Answers, ps: seq<nat>, was: map<string, Bytes>)
    ensures PassAt(a, ps, 0, [], was, was)
  {
  }

  lemma PassSkips(a: Answers, ps: seq<nat>, i: nat, collected: seq<Shard>, was: map<string, Bytes>, now: map<string, Bytes>)
    requires PassAt(a, ps, i, collected, was, now) && i < |ps| && !a.Good(ps[i])
    ensures PassAt(a, ps, i + 1, collected, was, now)
  {
    a.KeepNext(ps, i, true);
    assert a.Keep(ps[..i + 1], true) == a.Keep(ps[..i], true);
  }

  lemma PassPicks(a: Answers, ps: seq<nat>, i: nat, collected: seq<Shard>, was: map<string, Bytes>, now: map<string, Bytes>)
    requires PassAt(a, ps, i, collected, was, now) && i < |ps| && a.Good(ps[i])
    ensures var p := ps[i];
            var sm := a.metas[p];
            PassAt(a, ps, i + 1, collected + [Shard(sm.shardIndex, sm.shardHash, sm.size, a.data[p])], was,
                   now[sm.shardHash := a.data[p].value])
  {
    var before := a.Keep(ps[..i], true);
    a.KeepNext(ps, i, true);
    KeepUsable(a, ps[..i + 1]);
    HandNext(a, before, ps[i]);
    CacheNext(was, a, before, ps[i]);
  }

  /** Pass 1: the shards that are in the local store and match their hash, until k are in hand. */
  method CollectLocal(H: Bytes -> string, metas: seq<ShardInfo>, k: nat, store: LocalStore)
    returns (collected: seq<Shard>, remaining: seq<nat>)
    ensures var local := LocalAnswers(H, metas, store.chunks);
            && Usable(local, LocalPicks(local, k))
            && collected == local.InHand(LocalPicks(local, k))
            && (|collected| < k ==> remaining == local.Keep(Positions(|metas|), false))
  {
    ghost var local := LocalAnswers(H, metas, store.chunks);
    ghost var all := Positions(|metas|);
    collected, remaining := [], [];
    var p := 0;
    KeepUsable(local, all[..0]);
    while p < |metas|
      invariant 0 <= p <= |metas| && |collected| <= k
      invariant Usable(local, local.Keep(all[..p], true))
      invariant collected == local.InHand(local.Keep(all[..p], true))
      invariant remaining == local.Keep(all[..p], false)
    {
      if |collected| >= k {
        break;
      }
      var sm := metas[p];
      var data := store.LoadChunk(sm.shardHash);
      local.KeepNext(all, p, true);
      local.KeepNext(all, p, false);
      KeepUsable(local, all[..p + 1]);
      if data.None? || H(data.value) != sm.shardHash {
        remaining := remaining + [p];
      } else {
        collected := collected + [Shard(sm.shardIndex, sm.shardHash, sm.size, data)];
      }
      p := p + 1;
    }
    assert all[..p] + all[p..] == all;
    local.KeepConcat(all[..p], all[p..], true);
    KeepUsable(local, all);
    assert all[..|metas|] == all;
    if |collected| == k {
      assert LocalPicks(local, k) == local.Keep(all[..p], true);
    } else {
      assert p == |metas|;
    }
  }

  /** Pass 2: the remaining shards from peers, one by one, until `need` more are in hand. Good answers
      are cached in the store. */
  method CollectFromPeers(peer: Answers, remaining: seq<nat>, need: nat, store: LocalStore)
    returns (collected: seq<Shard>, asked: nat)
    requires Within(remaining, peer)
    modifies store
    ensures asked == peer.Asked(remaining, need)
    ensures var picks := peer.Keep(remaining[..asked], true);
            && Usable(peer, picks)
            && collected == peer.InHand(picks)
            && store.chunks == Cached(old(store.chunks), peer, picks)
  {
    ghost var was := store.chunks;
    collected, asked := [], 0;
    assert remaining[0..] == remaining;
    PassStarts(peer, remaining, was);
    while asked < |remaining|
      invariant asked <= |remaining| && |collected| <= need
      invariant peer.Asked(remaining, need) == asked + peer.Asked(remaining[asked..], need - |collected|)
      invariant PassAt(peer, remaining, asked, collected, was, store.chunks)
    {
      if |collected| >= need {
        break;
      }
      var p := remaining[asked];
      var sm, data := peer.metas[p], peer.data[p];
      peer.AskedNext(remaining, asked, need - |collected|);
      if data.Some? && peer.H(data.value) == sm.shardHash {
        PassPicks(peer, remaining, asked, collected, was, store.chunks);
        store.SaveChunk(sm.shardHash, data.value);
        collected := collected + [Shard(sm.shardIndex, sm.shardHash, sm.size, data)];
      } else {
        PassSkips(peer, remaining, asked, collected, was, store.chunks);
      }
      asked := asked + 1;
    }
  }

  lemma CollectedUsable(local: Answers, peer: Answers, k: nat)
    ensures Usable(local, LocalPicks(local, k))
    ensures Usable(peer, PeerPicks(local, peer, k))
  {
    KeepUsable(local, Positions(|local.metas|));
    KeepUsable(peer, AskedOfPeers(local, peer, k));
  }

  lemma CollectedParts(local: Answers, peer: Answers, k: nat)
    requires |peer.data| == |peer.metas| == |local.metas|
    ensures Usable(local, LocalPicks(local, k)) && Usable(peer, PeerPicks(local, peer, k))
    ensures Collected(local, peer, k) == local.InHand(LocalPicks(local, k)) + peer.InHand(PeerPicks(local, peer, k))
    ensures var missing := local.Keep(Positions(|local.metas|), false);
            && Within(missing, peer)
            && (|LocalPicks(local, k)| < k ==>
                AskedOfPeers(local, peer, k) == missing[..peer.Asked(missing, k - |LocalPicks(local, k)|)])
            && (|LocalPicks(local, k)| >= k ==> AskedOfPeers(local, peer, k) == [] && PeerPicks(local, peer, k) == [])
  {
    CollectedUsable(local, peer, k);
    MissingWithin(local, peer);
  }

  /** Both passes. `requested` lists the positions peers were asked for. */
  method CollectShards(k: nat, store: LocalStore, peer: Answers)
    returns (collected: seq<Shard>, requested: seq<nat>)
    requires |peer.data| == |peer.metas|
    modifies store
    ensures var local := LocalAnswers(peer.H, peer.metas, old(store.chunks));
            && collected == Collected(local, peer, k)
            && requested == AskedOfPeers(local, peer, k)
            && Usable(peer, PeerPicks(local, peer, k))
            && store.chunks == Cached(old(store.chunks), peer, PeerPicks(local, peer, k))
  {
    ghost var local := LocalAnswers(peer.H, peer.metas, store.chunks);
    CollectedParts(local, peer, k);
    requested := [];
    var remaining;
    collected, remaining := CollectLocal(peer.H, peer.metas, k, store);
    if |collected| < k {
      var more, asked := CollectFromPeers(peer, remaining, k - |collected|, store);
      collected := collected + more;
      requested := remaining[..asked];
    }
  }

  lemma MissingWithin(local: Answers, peer: Answers)
    requires |peer.data| == |peer.metas| == |local.metas|
    ensures Within(local.Keep(Positions(|local.metas|), false), peer)
  {
    var missing := local.Keep(Positions(|local.metas|), false);
    local.KeepMembers(Positions(|local.metas|), false);
    forall i | 0 <= i < |missing| ensures missing[i] < |local.metas| {
      assert missing[i] in missing;
    }
  }

  /** `peer.data` holds what the peers would answer for the shard at each position. */
  method FetchAndDecode(c: Code, info: ChunkInfo, k: nat, n: nat, store: LocalStore, peer: Answers)
    returns (r: Result<Bytes>, requested: seq<nat>)
    requires peer.metas == info.shards && |peer.data| == |info.shards|
    modifies store
    ensures var local := LocalAnswers(peer.H, info.shards, old(store.chunks));
            && r == Fetched(c, info, k, n, local, peer)
            && requested == AskedOfPeers(local, peer, k)
            && Usable(peer, PeerPicks(local, peer, k))
            && store.chunks == Cached(old(store.chunks), peer, PeerPicks(local, peer, k))
  {
    ghost var local := LocalAnswers(peer.H, info.shards, store.chunks);
    if |info.shards| == 0 {
      NothingToCollect(local, peer, k);
      return Err("no shard metadata"), [];
    }
    var collected;
    collected, requested := CollectShards(k, store, peer);
    if |collected| < k {
      return Err("unrecoverable"), requested;
    }
    r := DecodeChunk(c, collected[..k], info.size, k, n);
    if r.Ok? && peer.H(r.value) != info.chunkHash {
      r := Err("hash mismatch");
    }
  }

  lemma NothingToCollect(local: Answers, peer: Answers, k: nat)
    requires |local.metas| == 0
    ensures AskedOfPeers(local, peer, k) == [] && PeerPicks(local, peer, k) == []
  {
  }

  // ---------------------------------------------------------------- what the collection guarantees

  /** The positions whose shard some source has with a matching hash. */
  function Obtainable(local: Answers, peer: Answers): set<nat> {
    set p: nat | p < |local.metas| && (local.Good(p) || peer.Good(p))
  }

  function Picks(local: Answers, peer: Answers, k: nat): seq<nat> {
    LocalPicks(local, k) + PeerPicks(local, peer, k)
  }

  lemma PrefixDistinct(s: seq<nat>, m: nat)
    requires Distinct(s) && m <= |s|
    ensures Distinct(s[..m]) && forall p :: p in s[..m] ==> p in s
  {
  }

  lemma DisjointConcat(a: seq<nat>, b: seq<nat>)
    requires Distinct(a) && Distinct(b) && forall p :: p in a ==> p !in b
    ensures Distinct(a + b)
  {
    forall i, j | 0 <= i < j < |a + b| ensures (a + b)[i] != (a + b)[j] {
      if i < |a| <= j {
        assert a[i] in a && b[j - |a|] in b;
      }
    }
  }

  lemma LocalPicksAre(local: Answers, k: nat)
    ensures Distinct(LocalPicks(local, k))
    ensures forall p :: p in LocalPicks(local, k) ==> p < |local.metas| && local.Good(p)
  {
    var all := Positions(|local.metas|);
    local.KeepMembers(all, true);
    PrefixDistinct(local.Keep(all, true), |LocalPicks(local, k)|);
  }

  lemma PeerPicksAre(local: Answers, peer: Answers, k: nat)
    ensures Distinct(PeerPicks(local, peer, k))
    ensures forall p :: p in PeerPicks(local, peer, k) ==> p < |local.metas| && !local.Good(p) && peer.Good(p)
  {
    var all, asked := Positions(|local.metas|), AskedOfPeers(local, peer, k);
    local.KeepMembers(all, false);
    PrefixDistinct(local.Keep(all, false), |asked|);
    peer.KeepMembers(asked, true);
  }

  /** The picked positions are distinct and obtainable. */
  lemma PicksDistinct(local: Answers, peer: Answers, k: nat)
    ensures Distinct(Picks(local, peer, k))
    ensures ToSet(Picks(local, peer, k)) <= Obtainable(local, peer)
  {
    LocalPicksAre(local, k);
    PeerPicksAre(local, peer, k);
    DisjointConcat(LocalPicks(local, k), PeerPicks(local, peer, k));
  }

  lemma AllObtainable(local: Answers, peer: Answers)
    ensures var all := Positions(|local.metas|);
            |local.Keep(all, true)| + |peer.Keep(local.Keep(all, false), true)| == |Obtainable(local, peer)|
  {
    var all := Positions(|local.metas|);
    local.KeepMembers(all, true);
    local.KeepMembers(all, false);
    var good, fetched := local.Keep(all, true), peer.Keep(local.Keep(all, false), true);
    peer.KeepMembers(local.Keep(all, false), true);
    DisjointConcat(good, fetched);
    DistinctSize(good + fetched);
    forall p ensures p in ToSet(good + fetched) <==> p in Obtainable(local, peer) {
      if p in Obtainable(local, peer) {
        assert all[p] == p;
      }
    }
    assert ToSet(good + fetched) == Obtainable(local, peer);
  }

  lemma LocalCount(local: Answers, k: nat)
    ensures var have := |local.Keep(Positions(|local.metas|), true)|;
            |LocalPicks(local, k)| == if have > k then k else have
  {
  }

  lemma PeerCount(local: Answers, peer: Answers, k: nat)
    ensures var all := Positions(|local.metas|);
            var have, more := |local.Keep(all, true)|, |peer.Keep(local.Keep(all, false), true)|;
            |PeerPicks(local, peer, k)| == if have >= k then 0 else if k - have <= more then k - have else more
  {
    var all := Positions(|local.metas|);
    var have, missing := |local.Keep(all, true)|, local.Keep(all, false);
    if have < k {
      peer.AskedSpec(missing, k - have);
    }
  }

  /** The two passes stop with k shards when k are obtainable, and otherwise collect every obtainable
      shard. */
  lemma PicksCount(local: Answers, peer: Answers, k: nat)
    ensures var available := |Obtainable(local, peer)|;
            |Picks(local, peer, k)| == if available >= k then k else available
  {
    LocalCount(local, k);
    PeerCount(local, peer, k);
    AllObtainable(local, peer);
  }

  /** The manifest entry of an encoded chunk: everything but the shard bytes. */
  function InfoOf(e: EncodedChunk): ChunkInfo {
    ChunkInfo(e.chunkHash, e.chunkSize,
              seq(|e.shards|, i requires 0 <= i < |e.shards| =>
                ShardInfo(e.shards[i].shardIndex, e.shards[i].shardHash, e.shards[i].size)))
  }

  /** Some source holds bytes other than the encoder's shard, with the same hash. */
  ghost predicate Collision(a: Answers, shards: seq<Shard>) {
    exists p: nat :: p < |shards| && p < |a.data| && Collides(a, shards, p)
  }

  predicate Collides(a: Answers, shards: seq<Shard>, p: nat)
    requires p < |shards| && p < |a.data|
  {
    && a.data[p].Some? && shards[p].data.Some?
    && a.data[p].value != shards[p].data.value
    && a.H(a.data[p].value) == a.H(shards[p].data.value)
  }

  lemma GoodIsGenuine(H: Bytes -> string, e: EncodedChunk, raw: seq<Bytes>, a: Answers, p: nat)
    requires e.shards == ShardsOf(H, raw) && a.H == H && a.metas == InfoOf(e).shards
    requires a.Good(p) && !Collision(a, e.shards)
    ensures p < |e.shards| && a.data[p] == e.shards[p].data
    ensures a.InHand([p]) == [e.shards[p]]
  {
    assert e.shards[p].data == Some(raw[p]);
    assert !Collides(a, e.shards, p);
  }

  lemma HandIsGenuine(H: Bytes -> string, e: EncodedChunk, raw: seq<Bytes>, a: Answers, ps: seq<nat>)
    requires e.shards == ShardsOf(H, raw) && a.H == H && a.metas == InfoOf(e).shards
    requires Usable(a, ps) && !Collision(a, e.shards)
    ensures forall i :: 0 <= i < |ps| ==> ps[i] < |e.shards|
    ensures a.InHand(ps) == Select(e.shards, ps)
  {
    forall i | 0 <= i < |ps| ensures ps[i] < |e.shards| && a.InHand(ps)[i] == e.shards[ps[i]] {
      GoodIsGenuine(H, e, raw, a, ps[i]);
      assert a.InHand(ps)[i] == a.InHand([ps[i]])[0];
    }
  }

  lemma SelectConcat(shards: seq<Shard>, a: seq<nat>, b: seq<nat>)
    requires (forall i :: 0 <= i < |a| ==> a[i] < |shards|) && (forall i :: 0 <= i < |b| ==> b[i] < |shards|)
    ensures forall i :: 0 <= i < |a + b| ==> (a + b)[i] < |shards|
    ensures Select(shards, a + b) == Select(shards, a) + Select(shards, b)
  {
  }

  lemma CollectedGenuine(H: Bytes -> string, e: EncodedChunk, raw: seq<Bytes>, local: Answers, peer: Answers, k: nat)
    requires e.shards == ShardsOf(H, raw) && local.H == peer.H == H && local.metas == peer.metas == InfoOf(e).shards
    requires !Collision(local, e.shards) && !Collision(peer, e.shards)
    ensures forall i :: 0 <= i < |Picks(local, peer, k)| ==> Picks(local, peer, k)[i] < |e.shards|
    ensures Collected(local, peer, k) == Select(e.shards, Picks(local, peer, k))
  {
    CollectedUsable(local, peer, k);
    var a, b := LocalPicks(local, k), PeerPicks(local, peer, k);
    HandIsGenuine(H, e, raw, local, a);
    HandIsGenuine(H, e, raw, peer, b);
    SelectConcat(e.shards, a, b);
  }

  /** For encoder-made metadata the fetch gives back the chunk exactly when at least k shards are
      obtainable from the store and the peers together, or else a hash collision is in hand. */
  lemma FetchSucceedsExactly(H: Bytes -> string, c: Code, chunk: Bytes, k: nat, n: nat, local: Answers, peer: Answers)
    requires 1 <= k <= n <= 256 && |chunk| > 0 && AnyKDecode(c, k, n)
    requires var info := InfoOf(Encoded(H, c, chunk, k, n).value);
             local.metas == peer.metas == info.shards && local.H == peer.H == H
    ensures var e := Encoded(H, c, chunk, k, n).value;
            var r := Fetched(c, InfoOf(e), k, n, local, peer);
            && (|Obtainable(local, peer)| < k ==> r == Err("unrecoverable"))
            && (|Obtainable(local, peer)| >= k ==>
                r == Ok(chunk) || Collision(local, e.shards) || Collision(peer, e.shards))
  {
    var e := Encoded(H, c, chunk, k, n).value;
    EncodedCount(H, c, chunk, k, n);
    PicksCount(local, peer, k);
    CollectedUsable(local, peer, k);
    assert |Collected(local, peer, k)| == |Picks(local, peer, k)|;
    if |Obtainable(local, peer)| >= k && !Collision(local, e.shards) && !Collision(peer, e.shards) {
      var idx := Picks(local, peer, k);
      CollectedGenuine(H, e, RawShards(c, chunk, k), local, peer, k);
      PicksDistinct(local, peer, k);
      assert ShardIndices(idx, k, n);
      AnyKShardsDecode(H, c, chunk, k, n, idx);
      assert Collected(local, peer, k)[..k] == Select(e.shards, idx);
    }
  }

  lemma EncodedCount(H: Bytes -> string, c: Code, chunk: Bytes, k: nat, n: nat)
    requires 1 <= k <= n <= 256 && |chunk| > 0 && AnyKDecode(c, k, n)
    ensures |Encoded(H, c, chunk, k, n).value.shards| == n
  {
    assert DecodesBack(c, k, n, Slices(Padded(chunk, k), BlockSize(|chunk|, k), k));
  }

  function GoodPositions(a: Answers): set<nat> {
    set p: nat | p < |a.metas| && a.Good(p)
  }

  lemma KeepIsGood(a: Answers)
    ensures var kept := a.Keep(Positions(|a.metas|), true);
            ToSet(kept) == GoodPositions(a) && |kept| == |GoodPositions(a)|
  {
    var all := Positions(|a.metas|);
    a.KeepMembers(all, true);
    DistinctSize(a.Keep(all, true));
    forall p ensures p in ToSet(a.Keep(all, true)) <==> p in GoodPositions(a) {
      if p in GoodPositions(a) {
        assert all[p] == p;
      }
    }
    assert ToSet(a.Keep(all, true)) == GoodPositions(a);
  }

  /** Peers are asked only for shards that are not in the store, and for none at all exactly when k good
      shards, or all there are, are local. */
  lemma PeersSpared(local: Answers, peer: Answers, k: nat)
    ensures var good := GoodPositions(local);
            && (AskedOfPeers(local, peer, k) == [] <==> |good| >= k || |good| == |local.metas|)
            && forall p :: p in AskedOfPeers(local, peer, k) ==> p < |local.metas| && p !in good
  {
    var all := Positions(|local.metas|);
    KeepIsGood(local);
    KeepBoth(local, all);
    local.KeepMembers(all, false);
    var asked, missing := AskedOfPeers(local, peer, k), local.Keep(all, false);
    forall p | p in asked ensures p < |local.metas| && p !in GoodPositions(local) {
      assert p in missing;
    }
  }

  lemma {:induction false} KeepBoth(a: Answers, ps: seq<nat>)
    ensures |a.Keep(ps, true)| + |a.Keep(ps, false)| == |ps|
  {
    if |ps| > 0 {
      KeepBoth(a, ps[1..]);
    }
  }

  predicate GoodIn(H: Bytes -> string, chunks: map<string, Bytes>, shardHash: string) {
    shardHash in chunks && H(chunks[shardHash]) == shardHash
  }

  lemma {:induction false} CachedIsGood(chunks: map<string, Bytes>, peer: Answers, ps: seq<nat>)
    requires Usable(peer, ps)
    ensures var now := Cached(chunks, peer, ps);
            && (forall h :: GoodIn(peer.H, chunks, h) ==> GoodIn(peer.H, now, h))
            && (forall i :: 0 <= i < |ps| ==> GoodIn(peer.H, now, peer.metas[ps[i]].shardHash))
  {
    if |ps| > 0 {
      var front := ps[..|ps| - 1];
      CachedIsGood(chunks, peer, front);
      forall i | 0 <= i < |ps| - 1 ensures GoodIn(peer.H, Cached(chunks, peer, ps), peer.metas[ps[i]].shardHash) {
        assert front[i] == ps[i];
      }
    }
  }

  /** After a fetch that had k shards to obtain, the next fetch of the chunk asks no peer. */
  lemma NextFetchIsLocal(H: Bytes -> string, chunks: map<string, Bytes>, peer: Answers, again: Answers, k: nat)
    requires peer.H == H
    requires |Obtainable(LocalAnswers(H, peer.metas, chunks), peer)| >= k
    ensures var local := LocalAnswers(H, peer.metas, chunks);
            && Usable(peer, PeerPicks(local, peer, k))
            && var now := Cached(chunks, peer, PeerPicks(local, peer, k));
               AskedOfPeers(LocalAnswers(H, peer.metas, now), again, k) == []
  {
    var local := LocalAnswers(H, peer.metas, chunks);
    CollectedUsable(local, peer, k);
    var now := LocalAnswers(H, peer.metas, Cached(chunks, peer, PeerPicks(local, peer, k)));
    var picks := Picks(local, peer, k);
    PicksCount(local, peer, k);
    PicksDistinct(local, peer, k);
    CachedIsGood(chunks, peer, PeerPicks(local, peer, k));
    forall p | p in ToSet(picks) ensures p in GoodPositions(now) {
      PickStaysGood(chunks, peer, k, p);
    }
    DistinctSize(picks);
    SubsetSize(ToSet(picks), GoodPositions(now));
    PeersSpared(now, again, k);
  }

  lemma PickStaysGood(chunks: map<string, Bytes>, peer: Answers, k: nat, p: nat)
    requires p in Picks(LocalAnswers(peer.H, peer.metas, chunks), peer, k)
    ensures var local := LocalAnswers(peer.H, peer.metas, chunks);
            && Usable(peer, PeerPicks(local, peer, k))
            && LocalAnswers(peer.H, peer.metas, Cached(chunks, peer, PeerPicks(local, peer, k))).Good(p)
  {
    var local := LocalAnswers(peer.H, peer.metas, chunks);
    CollectedUsable(local, peer, k);
    CachedIsGood(chunks, peer, PeerPicks(local, peer, k));
    if p in LocalPicks(local, k) {
      assert local.Good(p);
      assert GoodIn(peer.H, chunks, peer.metas[p].shardHash);
    } else {
      var i :| 0 <= i < |PeerPicks(local, peer, k)| && PeerPicks(local, peer, k)[i] == p;
    }
  }

  // ---------------------------------------------------------------- the contract can be met

  /** A decoder: some blocks that have these shards, when there are any. */
  ghost function SomeBlocks(k: nat, shards: seq<Bytes>, idx: seq<nat>): seq<Bytes> {
    if exists blocks: seq<Bytes>, length: nat :: Explains(blocks, k, length, shards, idx)
    then var blocks: seq<Bytes>, length: nat :| Explains(blocks, k, length, shards, idx); blocks
    else []
  }

  predicate Explains(blocks: seq<Bytes>, k: nat, length: nat, shards: seq<Bytes>, idx: seq<nat>) {
    && P.Uniform(blocks, k, length) && |shards| == |idx|
    && forall i :: 0 <= i < |idx| ==> shards[i] == P.ShardAt(blocks, length, idx[i])
  }

  function BlocksLength(blocks: seq<Bytes>): nat {
    if |blocks| == 0 then 0 else |blocks[0]|
  }

  function Evaluate(blocks: seq<Bytes>, n: nat): seq<Bytes> {
    var length := BlocksLength(blocks);
    if P.Uniform(blocks, |blocks|, length)
    then seq(n, x requires 0 <= x < n => P.ShardAt(blocks, length, x))
    else []
  }

  ghost function PolynomialCode(k: nat, n: nat): Code {
    Code(blocks => Evaluate(blocks, n), (shards, idx) => SomeBlocks(k, shards, idx))
  }

  lemma PointsDistinct(idx: seq<nat>, points: seq<int>)
    requires Distinct(idx) && |points| == |idx| && forall i :: 0 <= i < |idx| ==> points[i] == idx[i]
    ensures Distinct(points)
  {
  }

  /** The library contract is satisfiable for every 1 <= k <= n: polynomial evaluation meets it. */
  lemma ContractIsMet(k: nat, n: nat)
    requires 1 <= k <= n
    ensures AnyKDecode(PolynomialCode(k, n), k, n)
  {
    var c := PolynomialCode(k, n);
    forall blocks: seq<Bytes>, length: nat | P.Uniform(blocks, k, length) ensures DecodesBack(c, k, n, blocks) {
      assert BlocksLength(blocks) == length;
      forall idx: seq<nat> | ShardIndices(idx, k, n) ensures c.decode(Pick(c.encode(blocks), idx), idx) == blocks {
        PolynomialDecodes(k, n, blocks, length, idx);
      }
    }
  }

  lemma PolynomialDecodes(k: nat, n: nat, blocks: seq<Bytes>, length: nat, idx: seq<nat>)
    requires 1 <= k <= n && P.Uniform(blocks, k, length) && ShardIndices(idx, k, n)
    ensures |Evaluate(blocks, n)| == n
    ensures SomeBlocks(k, Pick(Evaluate(blocks, n), idx), idx) == blocks
  {
    assert BlocksLength(blocks) == length;
    var shards := Pick(Evaluate(blocks, n), idx);
    assert Explains(blocks, k, length, shards, idx);
    var found := SomeBlocks(k, shards, idx);
    var foundLength: nat :| Explains(found, k, foundLength, shards, idx);
    assert |shards[0]| == |P.ShardAt(blocks, length, idx[0])| == length;
    assert |shards[0]| == |P.ShardAt(found, foundLength, idx[0])| == foundLength;
    var points: seq<int> := seq(k, i requires 0 <= i < k => idx[i]);
    PointsDistinct(idx, points);
    P.ShardsDetermineBlocks(found, blocks, length, points);
  }
}
