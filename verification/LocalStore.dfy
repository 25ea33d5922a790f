/** The chunk files of a node and their eviction (backend/storage/local_store.py:20-122), and the
    quota tick that drives it (backend/advanced/garbage_collector.py:21-38). */
module LocalStores {
  import opened Seqs

  /** The number of files an eviction goes through: it stops once `target` bytes are freed. */
  function EvictedCount(sizes: seq<nat>, target: int): (n: nat)
    ensures n <= |sizes|
  {
    if |sizes| == 0 || target <= 0 then 0 else 1 + EvictedCount(sizes[1..], target - sizes[0])
  }

  /** Eviction goes as far as needed and no further: enough is freed or every file was visited, and
      without the last visited file too little would have been freed. */
  lemma {:induction false} EvictedCountSpec(sizes: seq<nat>, target: int)
    ensures var n := EvictedCount(sizes, target);
            && (Sum(sizes[..n]) >= target || n == |sizes|)
            && (n > 0 ==> Sum(sizes[..n - 1]) < target && Sum(sizes[..n]) == Sum(sizes[..n - 1]) + sizes[n - 1])
  {
    var n := EvictedCount(sizes, target);
    if n > 0 {
      var rest := sizes[1..];
      EvictedCountSpec(rest, target - sizes[0]);
      assert sizes[..n][1..] == rest[..n - 1];
      assert sizes[..n] == sizes[..n - 1] + [sizes[n - 1]];
      SumConcat(sizes[..n - 1], [sizes[n - 1]]);
      assert Sum([sizes[n - 1]]) == sizes[n - 1];
      if n > 1 {
        assert sizes[..n - 1][1..] == rest[..n - 2];
      }
    }
  }

  lemma EvictNext(sizes: seq<nat>, i: nat, target: int)
    requires i < |sizes| && target > 0
    ensures EvictedCount(sizes[i..], target) == 1 + EvictedCount(sizes[i + 1..], target - sizes[i])
  {
    assert sizes[i..][1..] == sizes[i + 1..];
  }

  class LocalStore {
    var chunks: map<string, Bytes>

    constructor ()
      ensures chunks == map[]
    {
      chunks := map[];
    }

    method SaveChunk(chunkHash: string, data: Bytes)
      modifies this
      ensures chunks == old(chunks)[chunkHash := data]
    {
      chunks := chunks[chunkHash := data];
    }

    method LoadChunk(chunkHash: string) returns (data: Option<Bytes>)
      ensures data == Loaded(chunks, chunkHash)
    {
      data := if chunkHash in chunks then Some(chunks[chunkHash]) else None;
    }

    method HasChunk(chunkHash: string) returns (has: bool)
      ensures has == (chunkHash in chunks)
    {
      has := chunkHash in chunks;
    }

    /** Deletes the least recently accessed chunk files until enough is freed. `listing` is the order in
        which the directory is listed, `atime` the access times, `stuck` the files that cannot be
        unlinked. */
    method EvictOldestChunks(target: int, listing: seq<string>, atime: string -> int, stuck: set<string>)
      returns (freed: nat)
      requires Distinct(listing) && ToSet(listing) == chunks.Keys
      modifies this
      ensures var order, was := SortBy(listing, atime), old(chunks);
              var n := EvictedCount(Sizes(order, was, stuck), target);
              && chunks == was - (ToSet(order[..n]) - stuck)
              && freed == Sum(Sizes(order, was, stuck)[..n])
    {
      var order := SortBy(listing, atime);
      SortBySpec(listing, atime);
      MultisetMembers(listing, order);
      DistinctPermutation(listing, order);
      assert forall k :: 0 <= k < |order| ==> order[k] in ToSet(listing);
      freed := DeleteInOrder(order, target, stuck);
    }

    method DeleteInOrder(order: seq<string>, target: int, stuck: set<string>) returns (freed: nat)
      requires Distinct(order) && forall k :: 0 <= k < |order| ==> order[k] in chunks
      modifies this
      ensures var was := old(chunks);
              var n := EvictedCount(Sizes(order, was, stuck), target);
              && chunks == was - (ToSet(order[..n]) - stuck)
              && freed == Sum(Sizes(order, was, stuck)[..n])
    {
      ghost var was := chunks;
      ghost var sizes := Sizes(order, was, stuck);
      freed := 0;
      var i := 0;
      assert sizes[0..] == sizes;
      while i < |order|
        invariant 0 <= i <= |order|
        invariant EvictedCount(sizes, target) == i + EvictedCount(sizes[i..], target - freed)
        invariant freed == Sum(sizes[..i])
        invariant chunks == was - (ToSet(order[..i]) - stuck)
      {
        if freed >= target {
          break;
        }
        var f := order[i];
        assert f in chunks by {
          NotBefore(order, i);
        }
        EvictNext(sizes, i, target - freed);
        SumTakeOne(sizes, i);
        TakeOne(order, i);
        DeletedOne(was, ToSet(order[..i]), stuck, f);
        if f !in stuck {
          var size := |chunks[f]|;
          chunks := chunks - {f};
          freed := freed + size;
        }
        i := i + 1;
      }
    }

    /** The bytes of every file of the directory; `otherFiles` is what is there besides chunk files. */
    method GetStorageSize(listing: seq<string>, otherFiles: nat) returns (total: nat)
      requires Distinct(listing) && ToSet(listing) == chunks.Keys
      ensures total == Stored(chunks) + otherFiles
    {
      total := otherFiles;
      NoneListed(chunks);
      for i := 0 to |listing|
        invariant total == Stored(chunks) - Stored(chunks - ToSet(listing[..i])) + otherFiles
      {
        NextListed(chunks, listing, i);
        total := total + |chunks[listing[i]]|;
      }
      AllListed(chunks, listing);
    }

    /** One round of the storage monitor. */
    method Tick(maxStorageMb: nat, otherFiles: nat, listing: seq<string>, atime: string -> int, stuck: set<string>)
      requires Distinct(listing) && ToSet(listing) == chunks.Keys
      modifies this
      ensures chunks == AfterTick(old(chunks), otherFiles, MaxBytes(maxStorageMb), SortBy(listing, atime), stuck)
    {
      var maxBytes := MaxBytes(maxStorageMb);
      var used := GetStorageSize(listing, otherFiles);
      if used > maxBytes {
        var freed := EvictOldestChunks(TickTarget(used, maxBytes), listing, atime, stuck);
      }
    }
  }

  lemma DeletedOne(was: map<string, Bytes>, gone: set<string>, stuck: set<string>, f: string)
    ensures was - (gone + {f} - stuck) == if f in stuck then was - (gone - stuck) else was - (gone - stuck) - {f}
  {
    if f in stuck {
      assert gone + {f} - stuck == gone - stuck;
    }
  }

  lemma NotBefore(order: seq<string>, i: nat)
    requires Distinct(order) && i < |order|
    ensures order[i] !in ToSet(order[..i])
  {
  }

  function Loaded(chunks: map<string, Bytes>, chunkHash: string): Option<Bytes> {
    if chunkHash in chunks then Some(chunks[chunkHash]) else None
  }

  /** What unlinking each file of `order` would free. */
  function Sizes(order: seq<string>, chunks: map<string, Bytes>, stuck: set<string>): (sizes: seq<nat>)
    ensures |sizes| == |order|
  {
    seq(|order|, i requires 0 <= i < |order| => if order[i] in chunks && order[i] !in stuck then |chunks[order[i]]| else 0)
  }

  lemma TakeOne(order: seq<string>, i: nat)
    requires i < |order|
    ensures ToSet(order[..i + 1]) == ToSet(order[..i]) + {order[i]}
  {
    assert order[..i + 1] == order[..i] + [order[i]];
  }

  lemma SumTakeOne(sizes: seq<nat>, i: nat)
    requires i < |sizes|
    ensures Sum(sizes[..i + 1]) == Sum(sizes[..i]) + sizes[i]
  {
    assert sizes[..i + 1] == sizes[..i] + [sizes[i]];
    SumConcat(sizes[..i], [sizes[i]]);
    assert Sum([sizes[i]]) == sizes[i];
  }

  // ---------------------------------------------------------------- the quota tick

  function MaxBytes(maxStorageMb: nat): nat {
    maxStorageMb * 1024 * 1024
  }

  /** A megabyte is a one and twenty binary zeros. */
  lemma MegabyteIsBinary(maxStorageMb: nat)
    ensures MaxBytes(maxStorageMb) == maxStorageMb * Pow2(20)
  {
    assert Pow2(10) == 1024 && Pow2(20) == 1024 * Pow2(10) by {
      PowersAdd(10, 10);
    }
  }

  function Pow2(n: nat): nat {
    if n == 0 then 1 else 2 * Pow2(n - 1)
  }

  lemma Twofold(a: nat, b: nat)
    ensures (2 * a) * b == 2 * (a * b)
  {
  }

  lemma {:induction false} PowersAdd(m: nat, n: nat)
    ensures Pow2(m + n) == Pow2(m) * Pow2(n)
  {
    if m > 0 {
      PowersAdd(m - 1, n);
      Twofold(Pow2(m - 1), Pow2(n));
    }
  }

  /** What a tick asks the eviction to free: down to 90% of the quota, truncated to whole bytes. */
  function TickTarget(used: nat, maxBytes: nat): int {
    (used as real - (maxBytes as real) * 0.90).Floor
  }

  /** The bytes of all chunk files. */
  ghost function Stored(chunks: map<string, Bytes>): nat {
    StoredIn(chunks, chunks.Keys)
  }

  ghost function StoredIn(chunks: map<string, Bytes>, names: set<string>): nat
    requires names <= chunks.Keys
  {
    if names == {} then 0 else
      var f :| f in names;
      |chunks[f]| + StoredIn(chunks, names - {f})
  }

  lemma OneCounted(chunks: map<string, Bytes>, names: set<string>) returns (f: string)
    requires names <= chunks.Keys && names != {}
    ensures f in names && StoredIn(chunks, names) == |chunks[f]| + StoredIn(chunks, names - {f})
  {
    f :| f in names && StoredIn(chunks, names) == |chunks[f]| + StoredIn(chunks, names - {f});
  }

  /** The total does not depend on the order in which the files are counted. */
  lemma {:induction false} StoredInWithout(chunks: map<string, Bytes>, names: set<string>, f: string)
    requires names <= chunks.Keys && f in names
    ensures StoredIn(chunks, names) == |chunks[f]| + StoredIn(chunks, names - {f})
    decreases names
  {
    var g := OneCounted(chunks, names);
    if f != g {
      StoredInWithout(chunks, names - {g}, f);
      StoredInWithout(chunks, names - {f}, g);
      assert names - {g} - {f} == names - {f} - {g};
    }
  }

  lemma {:induction false} StoredInSame(a: map<string, Bytes>, b: map<string, Bytes>, names: set<string>)
    requires names <= a.Keys && names <= b.Keys && forall f :: f in names ==> a[f] == b[f]
    ensures StoredIn(a, names) == StoredIn(b, names)
    decreases names
  {
    if names != {} {
      var f := OneCounted(a, names);
      StoredInSame(a, b, names - {f});
      StoredInWithout(b, names, f);
    }
  }

  lemma StoredWithout(chunks: map<string, Bytes>, f: string)
    requires f in chunks
    ensures Stored(chunks) == |chunks[f]| + Stored(chunks - {f})
  {
    StoredInWithout(chunks, chunks.Keys, f);
    assert (chunks - {f}).Keys == chunks.Keys - {f};
    StoredInSame(chunks, chunks - {f}, chunks.Keys - {f});
  }

  lemma NoneListed(chunks: map<string, Bytes>)
    ensures chunks - {} == chunks && ToSet<string>([]) == {}
  {
  }

  lemma NextListed(chunks: map<string, Bytes>, listing: seq<string>, i: nat)
    requires Distinct(listing) && ToSet(listing) == chunks.Keys && i < |listing|
    ensures listing[i] in chunks
    ensures Stored(chunks - ToSet(listing[..i])) == |chunks[listing[i]]| + Stored(chunks - ToSet(listing[..i + 1]))
  {
    assert listing[i] in ToSet(listing);
    NotBefore(listing, i);
    TakeOne(listing, i);
    var left := chunks - ToSet(listing[..i]);
    StoredWithout(left, listing[i]);
    assert left - {listing[i]} == chunks - ToSet(listing[..i + 1]);
  }

  lemma AllListed(chunks: map<string, Bytes>, listing: seq<string>)
    requires ToSet(listing) == chunks.Keys
    ensures Stored(chunks - ToSet(listing[..|listing|])) == 0
  {
    assert listing[..|listing|] == listing;
    assert chunks - chunks.Keys == map[];
  }

  /** The chunk files after the eviction has visited the first n files of `order`. */
  ghost function Visited(was: map<string, Bytes>, order: seq<string>, stuck: set<string>, n: nat): map<string, Bytes>
    requires n <= |order|
  {
    was - (ToSet(order[..n]) - stuck)
  }

  /** The chunk files after a round of the storage monitor. */
  ghost function AfterTick(was: map<string, Bytes>, otherFiles: nat, maxBytes: nat, order: seq<string>, stuck: set<string>):
    map<string, Bytes>
  {
    var used := Stored(was) + otherFiles;
    if used > maxBytes then Visited(was, order, stuck, EvictedCount(Sizes(order, was, stuck), TickTarget(used, maxBytes)))
    else was
  }

  lemma VisitNext(was: map<string, Bytes>, order: seq<string>, stuck: set<string>, n: nat)
    requires Distinct(order) && n < |order| && order[n] in was
    ensures var now, next := Visited(was, order, stuck, n), Visited(was, order, stuck, n + 1);
            && (order[n] in stuck ==> next == now)
            && (order[n] !in stuck ==> order[n] in now && now[order[n]] == was[order[n]] && next == now - {order[n]})
  {
    TakeOne(order, n);
    NotBefore(order, n);
    DeletedOne(was, ToSet(order[..n]), stuck, order[n]);
  }

  /** What is stored and what was freed add up. */
  lemma {:induction false} FreedAndStored(was: map<string, Bytes>, order: seq<string>, stuck: set<string>, n: nat)
    requires Distinct(order) && (forall k :: 0 <= k < |order| ==> order[k] in was) && n <= |order|
    ensures Stored(Visited(was, order, stuck, n)) + Sum(Sizes(order, was, stuck)[..n]) == Stored(was)
  {
    if n == 0 {
      assert ToSet(order[..0]) - stuck == {};
      assert was - {} == was;
    } else {
      FreedAndStored(was, order, stuck, n - 1);
      FreedOne(was, order, stuck, n - 1);
    }
  }

  lemma FreedOne(was: map<string, Bytes>, order: seq<string>, stuck: set<string>, n: nat)
    requires Distinct(order) && n < |order| && order[n] in was
    ensures Stored(Visited(was, order, stuck, n + 1)) + Sum(Sizes(order, was, stuck)[..n + 1])
         == Stored(Visited(was, order, stuck, n)) + Sum(Sizes(order, was, stuck)[..n])
  {
    SumTakeOne(Sizes(order, was, stuck), n);
    VisitNext(was, order, stuck, n);
    if order[n] !in stuck {
      StoredWithout(Visited(was, order, stuck, n), order[n]);
    }
  }

  /** The files that stay whatever the eviction does. */
  ghost function OnlyStuck(was: map<string, Bytes>, stuck: set<string>): map<string, Bytes> {
    was - (was.Keys - stuck)
  }

  /** Fewer files are no more bytes. */
  lemma {:induction false} StoredMonotone(small: map<string, Bytes>, large: map<string, Bytes>, names: set<string>)
    requires names == small.Keys
    requires forall f :: f in small ==> f in large && large[f] == small[f]
    ensures Stored(small) <= Stored(large)
    decreases names
  {
    if names == {} {
      assert small == map[];
    } else {
      var f :| f in small;
      assert (small - {f}).Keys == names - {f};
      StoredMonotone(small - {f}, large - {f}, names - {f});
      StoredWithout(small, f);
      StoredWithout(large, f);
    }
  }

  lemma StuckStay(was: map<string, Bytes>, order: seq<string>, stuck: set<string>, n: nat)
    requires ToSet(order) == was.Keys && n <= |order|
    ensures Stored(OnlyStuck(was, stuck)) <= Stored(Visited(was, order, stuck, n))
    ensures n == |order| ==> Visited(was, order, stuck, n) == OnlyStuck(was, stuck)
  {
    StoredMonotone(OnlyStuck(was, stuck), Visited(was, order, stuck, n), OnlyStuck(was, stuck).Keys);
    if n == |order| {
      assert order[..n] == order;
    }
  }

  /** Less than a byte above 90% of the quota. */
  predicate Restored(bytes: nat, maxBytes: nat) {
    (bytes as real) < (maxBytes as real) * 0.90 + 1.0
  }

  /** The eviction has freed its target exactly when the usage is back. */
  lemma TargetMeans(used: nat, maxBytes: nat, freed: nat)
    requires freed <= used
    ensures freed >= TickTarget(used, maxBytes) <==> Restored(used - freed, maxBytes)
  {
  }

  /** A round above the quota brings the usage back to 90% of it exactly when the files it cannot
      delete leave room for that; it deletes a file only while the usage is not yet back; below the
      quota nothing happens. */
  lemma TickRestoresQuota(was: map<string, Bytes>, otherFiles: nat, maxBytes: nat, order: seq<string>, stuck: set<string>)
    requires Distinct(order) && ToSet(order) == was.Keys
    ensures var now := AfterTick(was, otherFiles, maxBytes, order, stuck);
            if Stored(was) + otherFiles <= maxBytes then now == was else
              && (Restored(Stored(now) + otherFiles, maxBytes)
                  <==> Restored(Stored(OnlyStuck(was, stuck)) + otherFiles, maxBytes))
              && forall k :: 0 <= k < |order| && order[k] !in now ==>
                   !Restored(Stored(Visited(was, order, stuck, k)) + otherFiles, maxBytes)
  {
    if Stored(was) + otherFiles > maxBytes {
      RestoredExactly(was, otherFiles, maxBytes, order, stuck);
      forall k | 0 <= k < |order| && order[k] !in AfterTick(was, otherFiles, maxBytes, order, stuck)
        ensures !Restored(Stored(Visited(was, order, stuck, k)) + otherFiles, maxBytes)
      {
        DeletedWhenNeeded(was, otherFiles, maxBytes, order, stuck, k);
      }
    }
  }

  lemma RestoredExactly(was: map<string, Bytes>, otherFiles: nat, maxBytes: nat, order: seq<string>, stuck: set<string>)
    requires Distinct(order) && ToSet(order) == was.Keys && Stored(was) + otherFiles > maxBytes
    ensures Restored(Stored(AfterTick(was, otherFiles, maxBytes, order, stuck)) + otherFiles, maxBytes)
       <==> Restored(Stored(OnlyStuck(was, stuck)) + otherFiles, maxBytes)
  {
    var used := Stored(was) + otherFiles;
    var n := EvictedCount(Sizes(order, was, stuck), TickTarget(used, maxBytes));
    var now := AfterTick(was, otherFiles, maxBytes, order, stuck);
    assert now == Visited(was, order, stuck, n);
    var least := OnlyStuck(was, stuck);
    assert Stored(least) <= Stored(now) && (n == |order| ==> now == least) by {
      StuckStay(was, order, stuck, n);
    }
    assert n == |order| || Restored(Stored(now) + otherFiles, maxBytes) by {
      RestoredUnlessAll(was, otherFiles, maxBytes, order, stuck);
    }
    LessIsRestored(Stored(least) + otherFiles, Stored(now) + otherFiles, maxBytes);
  }

  /** The eviction stops only when the usage is back, or at the end of the list. */
  lemma RestoredUnlessAll(was: map<string, Bytes>, otherFiles: nat, maxBytes: nat, order: seq<string>, stuck: set<string>)
    requires Distinct(order) && ToSet(order) == was.Keys
    ensures var n := EvictedCount(Sizes(order, was, stuck), TickTarget(Stored(was) + otherFiles, maxBytes));
            n == |order| || Restored(Stored(Visited(was, order, stuck, n)) + otherFiles, maxBytes)
  {
    var used := Stored(was) + otherFiles;
    var sizes := Sizes(order, was, stuck);
    var n := EvictedCount(sizes, TickTarget(used, maxBytes));
    OrderInStore(order, was);
    FreedAndStored(was, order, stuck, n);
    EvictedCountSpec(sizes, TickTarget(used, maxBytes));
    TargetMeans(used, maxBytes, Sum(sizes[..n]));
  }

  lemma LessIsRestored(a: nat, b: nat, maxBytes: nat)
    requires a <= b
    ensures Restored(b, maxBytes) ==> Restored(a, maxBytes)
  {
  }

  lemma OrderInStore(order: seq<string>, was: map<string, Bytes>)
    requires ToSet(order) == was.Keys
    ensures forall k :: 0 <= k < |order| ==> order[k] in was
  {
    forall k | 0 <= k < |order| ensures order[k] in was {
      assert order[k] in ToSet(order);
    }
  }

  /** A file goes only while too little has been freed. */
  lemma DeletedWhenNeeded(was: map<string, Bytes>, otherFiles: nat, maxBytes: nat, order: seq<string>, stuck: set<string>, k: nat)
    requires Distinct(order) && ToSet(order) == was.Keys && Stored(was) + otherFiles > maxBytes
    requires k < |order| && order[k] !in AfterTick(was, otherFiles, maxBytes, order, stuck)
    ensures !Restored(Stored(Visited(was, order, stuck, k)) + otherFiles, maxBytes)
  {
    var used := Stored(was) + otherFiles;
    var sizes := Sizes(order, was, stuck);
    var n := EvictedCount(sizes, TickTarget(used, maxBytes));
    OrderInStore(order, was);
    GoneWasVisited(was, order, stuck, n, k);
    EvictedCountSpec(sizes, TickTarget(used, maxBytes));
    SumPrefix(sizes, k, n - 1);
    FreedAndStored(was, order, stuck, k);
    TargetMeans(used, maxBytes, Sum(sizes[..k]));
  }

  lemma GoneWasVisited(was: map<string, Bytes>, order: seq<string>, stuck: set<string>, n: nat, k: nat)
    requires Distinct(order) && n <= |order| && k < |order| && order[k] in was && order[k] !in Visited(was, order, stuck, n)
    ensures k < n
  {
    assert order[k] in order[..n];
  }

  lemma SumPrefix(sizes: seq<nat>, k: nat, n: nat)
    requires k <= n <= |sizes|
    ensures Sum(sizes[..k]) <= Sum(sizes[..n])
  {
    assert sizes[..n] == sizes[..k] + sizes[k..n];
    SumConcat(sizes[..k], sizes[k..n]);
  }

  /** What the eviction leaves: a prefix of the access order is gone when nothing is stuck. */
  lemma PrefixGone(listing: seq<string>, atime: string -> int, chunks: map<string, Bytes>, n: nat)
    requires Distinct(listing) && ToSet(listing) == chunks.Keys && n <= |listing|
    ensures |SortBy(listing, atime)| == |listing|
    ensures var order := SortBy(listing, atime);
            forall x, y :: x in chunks && x !in ToSet(order[..n]) && y in ToSet(order[..n]) ==> atime(y) <= atime(x)
  {
    SortBySpec(listing, atime);
    var order := SortBy(listing, atime);
    MultisetMembers(listing, order);
    forall x, y | x in chunks && x !in ToSet(order[..n]) && y in ToSet(order[..n]) ensures atime(y) <= atime(x) {
      assert order == order[..n] + order[n..];
      assert x in order && x in order[n..];
      var i :| 0 <= i < |order[n..]| && order[n..][i] == x;
      var j :| 0 <= j < n && order[..n][j] == y;
      assert order[n + i] == x && order[j] == y;
    }
  }
}
