/** The self-healing cycle over the routing table (backend/advanced/self_healing.py:55-117). */
module SelfHealing {
  import opened Seqs
  import opened Routing
  import D = Distances

  function Filter<T>(xs: seq<T>, p: T -> bool): seq<T> {
    if |xs| == 0 then [] else (if p(xs[0]) then [xs[0]] else []) + Filter(xs[1..], p)
  }

  /** What one cycle sees: the replication factor, this node, the alive peers, the chunks stored here,
      and which sends succeed. */
  datatype Cycle = Cycle(k: nat, me: string, alive: seq<string>, stored: set<string>, sends: (string, string) -> bool)

  function IsAlive(c: Cycle): string -> bool {
    (h: string) => h in c.alive || h == c.me
  }

  function AliveHolders(c: Cycle, holders: seq<string>): seq<string> {
    Filter(holders, IsAlive(c))
  }

  function NotIn(xs: seq<string>): string -> bool {
    (p: string) => p !in xs
  }

  function Sends(c: Cycle, chunkHash: string): string -> bool {
    (p: string) => c.sends(chunkHash, p)
  }

  function Candidates(c: Cycle, aliveHolders: seq<string>): seq<string> {
    Filter(c.alive, NotIn(aliveHolders))
  }

  function Targets(c: Cycle, chunkHash: string, aliveHolders: seq<string>): seq<string>
    requires |aliveHolders| < c.k
  {
    Names(Nearest(chunkHash, Candidates(c, aliveHolders), c.k - |aliveHolders|))
  }

  /** The entry of a chunk after the cycle. */
  function Healed(c: Cycle, chunkHash: string, holders: seq<string>): seq<string> {
    var alive := AliveHolders(c, holders);
    if |alive| >= c.k then holders
    else if chunkHash !in c.stored then alive
    else alive + Filter(Targets(c, chunkHash, alive), Sends(c, chunkHash))
  }

  // ---------------------------------------------------------------- the cycle as code

  lemma FilterCons<T>(x: T, xs: seq<T>, p: T -> bool)
    ensures Filter([x] + xs, p) == if p(x) then [x] + Filter(xs, p) else Filter(xs, p)
  {
    assert ([x] + xs)[1..] == xs;
  }

  lemma {:induction false} FilterConcat<T>(a: seq<T>, b: seq<T>, p: T -> bool)
    ensures Filter(a + b, p) == Filter(a, p) + Filter(b, p)
  {
    if |a| == 0 {
      assert a + b == b;
    } else {
      var x, rest := a[0], a[1..];
      FilterConcat(rest, b, p);
      assert a == [x] + rest;
      Regroup([x], rest, b);
      FilterCons(x, rest, p);
      FilterCons(x, rest + b, p);
      Regroup([x], Filter(rest, p), Filter(b, p));
    }
  }

  lemma FilterNext<T>(xs: seq<T>, i: nat, p: T -> bool)
    requires i < |xs|
    ensures Filter(xs[..i + 1], p) == Filter(xs[..i], p) + if p(xs[i]) then [xs[i]] else []
  {
    assert xs[..i + 1] == xs[..i] + [xs[i]];
    FilterConcat(xs[..i], [xs[i]], p);
    assert [xs[i]][1..] == [];
  }

  method AliveOf(c: Cycle, holders: seq<string>) returns (alive: seq<string>)
    ensures alive == AliveHolders(c, holders)
  {
    alive := [];
    for i := 0 to |holders|
      invariant alive == Filter(holders[..i], IsAlive(c))
    {
      FilterNext(holders, i, IsAlive(c));
      if holders[i] in c.alive || holders[i] == c.me {
        alive := alive + [holders[i]];
      }
    }
    assert holders[..|holders|] == holders;
  }

  /** Sends the chunk to the nearest candidates and appends those that got it. */
  method Replicate(c: Cycle, chunkHash: string, aliveHolders: seq<string>) returns (holders: seq<string>)
    requires |aliveHolders| < c.k
    ensures holders == aliveHolders + Filter(Targets(c, chunkHash, aliveHolders), Sends(c, chunkHash))
  {
    var candidates := Candidates(c, aliveHolders);
    var closest := FindClosestPeers(chunkHash, candidates, c.k - |aliveHolders|);
    var targets := Names(closest);
    holders := aliveHolders;
    for i := 0 to |targets|
      invariant holders == aliveHolders + Filter(targets[..i], Sends(c, chunkHash))
    {
      FilterNext(targets, i, Sends(c, chunkHash));
      if c.sends(chunkHash, targets[i]) {
        holders := holders + [targets[i]];
      }
    }
    assert targets[..|targets|] == targets;
  }

  predicate Under(c: Cycle, was: map<string, seq<string>>, h: string) {
    h in was && |AliveHolders(c, was[h])| < c.k
  }

  /** An entry while the cycle runs: `under` were trimmed, and those of `done` were refilled. */
  function EntryAt(c: Cycle, under: seq<string>, done: seq<string>, h: string, holders: seq<string>): seq<string> {
    if h in done then Healed(c, h, holders) else if h in under then AliveHolders(c, holders) else holders
  }

  predicate TableAt(c: Cycle, was: map<string, seq<string>>, table: map<string, seq<string>>, under: seq<string>, done: seq<string>) {
    && table.Keys == was.Keys
    && forall h :: h in was ==> table[h] == EntryAt(c, under, done, h, was[h])
  }

  lemma TrimNext(c: Cycle, was: map<string, seq<string>>, table: map<string, seq<string>>, under: seq<string>, h: string)
    requires TableAt(c, was, table, under, []) && h in was && h !in under
    ensures TableAt(c, was, table[h := AliveHolders(c, was[h])], under + [h], [])
  {
    var now := table[h := AliveHolders(c, was[h])];
    forall g | g in was ensures now[g] == EntryAt(c, under + [h], [], g, was[g]) {
      assert table[g] == EntryAt(c, under, [], g, was[g]);
    }
  }

  lemma RefillNext(c: Cycle, was: map<string, seq<string>>, table: map<string, seq<string>>, under: seq<string>, done: seq<string>,
                   h: string, holders: seq<string>)
    requires TableAt(c, was, table, under, done) && h in was && holders == Healed(c, h, was[h])
    ensures TableAt(c, was, table[h := holders], under, done + [h])
  {
    var now := table[h := holders];
    forall g | g in was ensures now[g] == EntryAt(c, under, done + [h], g, was[g]) {
      assert table[g] == EntryAt(c, under, done, g, was[g]);
    }
  }

  lemma Replaced(table: map<string, seq<string>>, h: string)
    requires h in table
    ensures table[h := table[h]] == table
  {
  }

  lemma NotYet(order: seq<string>, i: nat)
    requires Distinct(order) && i < |order|
    ensures order[i] !in order[..i] && order[..i + 1] == order[..i] + [order[i]]
  {
  }

  /** The first pass: under-replicated entries are cut down to their alive holders. */
  method Trim(c: Cycle, routing: RoutingTable, order: seq<string>) returns (under: seq<string>)
    requires Distinct(order) && forall i :: 0 <= i < |order| ==> order[i] in routing.table
    modifies routing
    ensures TableAt(c, old(routing.table), routing.table, under, [])
    ensures Distinct(under) && forall h :: h in under <==> h in order && Under(c, old(routing.table), h)
  {
    ghost var was := routing.table;
    under := [];
    for i := 0 to |order|
      invariant TableAt(c, was, routing.table, under, [])
      invariant Distinct(under) && forall h :: h in under <==> h in order[..i] && Under(c, was, h)
    {
      var h := order[i];
      NotYet(order, i);
      assert routing.table[h] == EntryAt(c, under, [], h, was[h]);
      var alive := AliveOf(c, routing.table[h]);
      if |alive| < c.k {
        TrimNext(c, was, routing.table, under, h);
        under := under + [h];
        routing.AssignChunk(h, alive);
      }
    }
    assert order[..|order|] == order;
  }

  /** The second pass: what is stored here is sent on to the nearest new peers. */
  method Refill(c: Cycle, routing: RoutingTable, ghost was: map<string, seq<string>>, under: seq<string>)
    requires Distinct(under) && TableAt(c, was, routing.table, under, [])
    requires forall h :: h in under ==> Under(c, was, h)
    modifies routing
    ensures TableAt(c, was, routing.table, under, under)
  {
    for i := 0 to |under|
      invariant TableAt(c, was, routing.table, under, under[..i])
    {
      var h := under[i];
      NotYet(under, i);
      assert Under(c, was, h);
      assert routing.table[h] == EntryAt(c, under, under[..i], h, was[h]);
      if h in c.stored {
        var holders := Replicate(c, h, routing.table[h]);
        RefillNext(c, was, routing.table, under, under[..i], h, holders);
        routing.AssignChunk(h, holders);
      } else {
        RefillNext(c, was, routing.table, under, under[..i], h, routing.table[h]);
        Replaced(routing.table, h);
      }
    }
    assert under[..|under|] == under;
  }

  /** `order` is the iteration order of the table. */
  method CheckAndHeal(c: Cycle, routing: RoutingTable, order: seq<string>)
    requires Distinct(order) && ToSet(order) == routing.table.Keys
    modifies routing
    ensures routing.table.Keys == old(routing.table).Keys
    ensures forall h :: h in routing.table ==> routing.table[h] == Healed(c, h, old(routing.table)[h])
  {
    ghost var was := routing.table;
    assert forall i :: 0 <= i < |order| ==> order[i] in ToSet(order);
    var under := Trim(c, routing, order);
    Refill(c, routing, was, under);
    forall h | h in was ensures routing.table[h] == Healed(c, h, was[h]) {
      assert h in ToSet(order);
      assert routing.table[h] == EntryAt(c, under, under, h, was[h]);
    }
  }

  // ---------------------------------------------------------------- what a cycle guarantees

  lemma {:induction false} FilterIn<T>(xs: seq<T>, p: T -> bool, x: T)
    ensures x in Filter(xs, p) <==> x in xs && p(x)
  {
    if |xs| > 0 {
      FilterIn(xs[1..], p, x);
      assert x in xs <==> x == xs[0] || x in xs[1..];
    }
  }

  lemma {:induction false} FilterDistinct<T>(xs: seq<T>, p: T -> bool)
    requires Distinct(xs)
    ensures Distinct(Filter(xs, p))
  {
    if |xs| > 0 {
      FilterDistinct(xs[1..], p);
      assert xs[0] !in xs[1..];
      FilterIn(xs[1..], p, xs[0]);
    }
  }

  lemma {:induction false} FilterAll<T>(xs: seq<T>, p: T -> bool)
    requires forall x :: x in xs ==> p(x)
    ensures Filter(xs, p) == xs
  {
    if |xs| > 0 {
      FilterAll(xs[1..], p);
      assert xs[0] in xs && xs == [xs[0]] + xs[1..];
    }
  }

  lemma {:induction false} FilterNone<T>(xs: seq<T>, p: T -> bool)
    requires forall x :: x in xs ==> !p(x)
    ensures Filter(xs, p) == []
  {
    if |xs| > 0 {
      assert xs[0] in xs;
      FilterNone(xs[1..], p);
    }
  }

  lemma FilterMembers<T>(xs: seq<T>, p: T -> bool)
    ensures forall x :: x in Filter(xs, p) <==> x in xs && p(x)
    ensures Distinct(xs) ==> Distinct(Filter(xs, p))
    ensures (forall x :: x in xs ==> p(x)) ==> Filter(xs, p) == xs
    ensures (forall x :: x in xs ==> !p(x)) ==> Filter(xs, p) == []
  {
    forall x ensures x in Filter(xs, p) <==> x in xs && p(x) {
      FilterIn(xs, p, x);
    }
    if Distinct(xs) {
      FilterDistinct(xs, p);
    }
    if forall x :: x in xs ==> p(x) {
      FilterAll(xs, p);
    }
    if forall x :: x in xs ==> !p(x) {
      FilterNone(xs, p);
    }
  }

  lemma TargetsAreNew(c: Cycle, chunkHash: string, aliveHolders: seq<string>)
    requires Distinct(c.alive) && |aliveHolders| < c.k
    ensures var t := Targets(c, chunkHash, aliveHolders);
            && Distinct(t) && (forall p :: p in t ==> p in c.alive && p !in aliveHolders)
            && |t| <= c.k - |aliveHolders|
  {
    CandidatesAreNew(c, aliveHolders);
    NearestNames(chunkHash, Candidates(c, aliveHolders), c.k - |aliveHolders|);
  }

  lemma CandidatesAreNew(c: Cycle, aliveHolders: seq<string>)
    requires Distinct(c.alive)
    ensures Distinct(Candidates(c, aliveHolders))
    ensures forall p :: p in Candidates(c, aliveHolders) ==> p in c.alive && p !in aliveHolders
  {
    FilterMembers(c.alive, NotIn(aliveHolders));
  }

  /** No alive peer that is passed over is nearer to the chunk than one that is tried. */
  lemma TargetsAreNearest(c: Cycle, chunkHash: string, aliveHolders: seq<string>, tried: string, other: string)
    requires Distinct(c.alive) && |aliveHolders| < c.k && D.IsHex(chunkHash) && D.IsHex(tried) && D.IsHex(other)
    requires tried in Targets(c, chunkHash, aliveHolders)
    requires other in c.alive && other !in aliveHolders && other !in Targets(c, chunkHash, aliveHolders)
    ensures Distance(chunkHash, tried).Some? && Distance(chunkHash, other).Some?
    ensures Distance(chunkHash, tried).value <= Distance(chunkHash, other).value
  {
    CandidatesAreNew(c, aliveHolders);
    FilterIn(c.alive, NotIn(aliveHolders), other);
    D.NearestAreNearest(chunkHash, Candidates(c, aliveHolders), c.k - |aliveHolders|, tried, other);
  }

  /** Who got the chunk in this cycle. */
  function Added(c: Cycle, chunkHash: string, aliveHolders: seq<string>): seq<string>
    requires |aliveHolders| < c.k
  {
    Filter(Targets(c, chunkHash, aliveHolders), Sends(c, chunkHash))
  }

  lemma AddedAreNew(c: Cycle, chunkHash: string, aliveHolders: seq<string>)
    requires Distinct(c.alive) && |aliveHolders| < c.k
    ensures var added := Added(c, chunkHash, aliveHolders);
            && Distinct(added) && (forall p :: p in added ==> p in c.alive && p !in aliveHolders)
            && |aliveHolders + added| <= c.k
  {
    TargetsAreNew(c, chunkHash, aliveHolders);
    var targets := Targets(c, chunkHash, aliveHolders);
    FilterMembers(targets, Sends(c, chunkHash));
    FilterShorter(targets, Sends(c, chunkHash));
  }

  /** No alive holder is dropped and no duplicate appears; an entry with k alive holders is untouched, and
      any other ends with alive holders only, at most k of them. */
  lemma HealingIsSafe(c: Cycle, chunkHash: string, holders: seq<string>)
    requires Distinct(c.alive)
    ensures var after := Healed(c, chunkHash, holders);
            && (forall h :: h in holders && IsAlive(c)(h) ==> h in after)
            && (Distinct(holders) ==> Distinct(after))
            && (|AliveHolders(c, holders)| >= c.k ==> after == holders)
            && (|AliveHolders(c, holders)| < c.k ==> |after| <= c.k && forall h :: h in after ==> IsAlive(c)(h))
  {
    var alive := AliveHolders(c, holders);
    AliveAre(c, holders);
    if |alive| < c.k && chunkHash in c.stored {
      RefilledIsSafe(c, chunkHash, alive);
      assert Healed(c, chunkHash, holders) == alive + Added(c, chunkHash, alive);
    }
  }

  lemma AliveAre(c: Cycle, holders: seq<string>)
    ensures forall h :: h in AliveHolders(c, holders) <==> h in holders && IsAlive(c)(h)
    ensures Distinct(holders) ==> Distinct(AliveHolders(c, holders))
  {
    FilterMembers(holders, IsAlive(c));
  }

  lemma RefilledIsSafe(c: Cycle, chunkHash: string, alive: seq<string>)
    requires Distinct(c.alive) && |alive| < c.k && forall h :: h in alive ==> IsAlive(c)(h)
    ensures var after := alive + Added(c, chunkHash, alive);
            && (forall h :: h in alive ==> h in after)
            && (Distinct(alive) ==> Distinct(after))
            && |after| <= c.k && forall h :: h in after ==> IsAlive(c)(h)
  {
    AddedAreNew(c, chunkHash, alive);
    var added := Added(c, chunkHash, alive);
    DistinctAppend(alive, added);
    forall h | h in alive + added ensures IsAlive(c)(h) {
      if h !in alive {
        assert h in added;
      }
    }
  }

  lemma DistinctAppend(a: seq<string>, b: seq<string>)
    requires Distinct(b) && forall x :: x in b ==> x !in a
    ensures Distinct(a) ==> Distinct(a + b)
  {
    if Distinct(a) {
      forall i, j | 0 <= i < j < |a + b| ensures (a + b)[i] != (a + b)[j] {
        if i < |a| <= j {
          assert b[j - |a|] in b && a[i] in a;
        }
      }
    }
  }

  lemma {:induction false} FilterShorter<T>(xs: seq<T>, p: T -> bool)
    ensures |Filter(xs, p)| <= |xs|
  {
    if |xs| > 0 {
      FilterShorter(xs[1..], p);
    }
  }

  /** Whoever is new in the entry is an alive peer to which this node, having the chunk, sent it successfully. */
  lemma NewHoldersGotIt(c: Cycle, chunkHash: string, holders: seq<string>, p: string)
    requires Distinct(c.alive) && p in Healed(c, chunkHash, holders) && p !in holders
    ensures chunkHash in c.stored && p in c.alive && c.sends(chunkHash, p)
  {
    var alive := AliveHolders(c, holders);
    AliveAre(c, holders);
    if |alive| < c.k && chunkHash in c.stored {
      AddedAreNew(c, chunkHash, alive);
      FilterIn(Targets(c, chunkHash, alive), Sends(c, chunkHash), p);
    }
  }

  /** When every send succeeds, an under-replicated chunk stored here ends with k holders, or with all
      its alive holders and every candidate whose distance can be computed when these are fewer. */
  lemma HealingRefills(c: Cycle, chunkHash: string, holders: seq<string>)
    requires Distinct(c.alive) && |AliveHolders(c, holders)| < c.k && chunkHash in c.stored
    requires forall p :: c.sends(chunkHash, p)
    ensures var alive := AliveHolders(c, holders);
            var available := |Measured(chunkHash, Candidates(c, alive))|;
            && |Healed(c, chunkHash, holders)| == (if c.k <= |alive| + available then c.k else |alive| + available)
            && (AllMeasurable(chunkHash, c.alive) ==> available == |Candidates(c, alive)|)
  {
    var alive := AliveHolders(c, holders);
    var candidates := Candidates(c, alive);
    FilterMembers(Targets(c, chunkHash, alive), Sends(c, chunkHash));
    FilterMembers(c.alive, NotIn(alive));
    NearestSpec(chunkHash, candidates, c.k - |alive|);
    MeasuredSpec(chunkHash, candidates);
  }

  // ---------------------------------------------------------------- a second cycle

  lemma {:induction false} FilterTwice<T>(xs: seq<T>, p: T -> bool, q: T -> bool, both: T -> bool)
    requires forall x :: both(x) <==> p(x) && q(x)
    ensures Filter(xs, both) == Filter(Filter(xs, p), q)
  {
    if |xs| > 0 {
      FilterTwice(xs[1..], p, q, both);
      assert xs == [xs[0]] + xs[1..];
      FilterCons(xs[0], xs[1..], both);
      FilterCons(xs[0], xs[1..], p);
      FilterCons(xs[0], Filter(xs[1..], p), q);
    }
  }

  function NotNamed(names: seq<string>): Ranked -> bool {
    (r: Ranked) => r.0 !in names
  }

  lemma {:induction false} MeasuredFilter(target: string, ids: seq<string>, names: seq<string>)
    ensures Measured(target, Filter(ids, NotIn(names))) == Filter(Measured(target, ids), NotNamed(names))
  {
    if |ids| > 0 {
      var id, rest := ids[0], ids[1..];
      MeasuredFilter(target, rest, names);
      assert ids == [id] + rest;
      FilterCons(id, rest, NotIn(names));
      MeasuredCons(target, id, rest);
      MeasuredCons(target, id, Filter(rest, NotIn(names)));
      if Distance(target, id).Some? {
        FilterCons((id, Distance(target, id).value), Measured(target, rest), NotNamed(names));
      }
    }
  }

  lemma InsertCons<T>(x: T, y: T, ys: seq<T>, key: T -> int)
    ensures InsertBy(x, [y] + ys, key) == if key(x) <= key(y) then [x] + ([y] + ys) else [y] + InsertBy(x, ys, key)
  {
    assert ([y] + ys)[1..] == ys;
  }

  lemma {:induction false} InsertFirst<T>(x: T, sorted: seq<T>, key: T -> int, p: T -> bool)
    requires SortedBy(sorted, key) && (|sorted| > 0 ==> key(x) <= key(sorted[0]))
    ensures InsertBy(x, Filter(sorted, p), key) == [x] + Filter(sorted, p)
  {
    if |sorted| > 0 && !p(sorted[0]) {
      InsertFirst(x, sorted[1..], key, p);
      assert sorted == [sorted[0]] + sorted[1..];
      FilterCons(sorted[0], sorted[1..], p);
    }
  }

  lemma {:induction false} InsertFilter<T>(x: T, sorted: seq<T>, key: T -> int, p: T -> bool)
    requires SortedBy(sorted, key)
    ensures Filter(InsertBy(x, sorted, key), p) ==
            if p(x) then InsertBy(x, Filter(sorted, p), key) else Filter(sorted, p)
  {
    if |sorted| == 0 || key(x) <= key(sorted[0]) {
      FilterCons(x, sorted, p);
      InsertFirst(x, sorted, key, p);
    } else {
      var y, ys := sorted[0], sorted[1..];
      assert sorted == [y] + ys;
      InsertFilter(x, ys, key, p);
      FilterCons(y, InsertBy(x, ys, key), p);
      FilterCons(y, ys, p);
      InsertCons(x, y, Filter(ys, p), key);
      if p(x) && !p(y) {
        assert Filter(sorted, p) == Filter(ys, p);
      }
    }
  }

  lemma SortCons<T>(x: T, xs: seq<T>, key: T -> int)
    ensures SortBy([x] + xs, key) == InsertBy(x, SortBy(xs, key), key)
  {
    assert ([x] + xs)[1..] == xs;
  }

  /** A stable sort commutes with leaving elements out. */
  lemma {:induction false} SortFilter<T>(xs: seq<T>, key: T -> int, p: T -> bool)
    ensures SortBy(Filter(xs, p), key) == Filter(SortBy(xs, key), p)
  {
    if |xs| > 0 {
      SortFilter(xs[1..], key, p);
      assert xs == [xs[0]] + xs[1..];
      SortFilterCons(xs[0], xs[1..], key, p);
    }
  }

  lemma SortFilterCons<T>(x: T, rest: seq<T>, key: T -> int, p: T -> bool)
    requires SortBy(Filter(rest, p), key) == Filter(SortBy(rest, key), p)
    ensures SortBy(Filter([x] + rest, p), key) == Filter(SortBy([x] + rest, key), p)
  {
    SortBySpec(rest, key);
    InsertFilter(x, SortBy(rest, key), key, p);
    FilterCons(x, rest, p);
    SortCons(x, rest, key);
    SortCons(x, Filter(rest, p), key);
  }

  lemma {:induction false} NamesFilter(ranked: seq<Ranked>, names: seq<string>)
    ensures Names(Filter(ranked, NotNamed(names))) == Filter(Names(ranked), NotIn(names))
  {
    if |ranked| > 0 {
      NamesFilter(ranked[1..], names);
      assert Names(ranked)[1..] == Names(ranked[1..]);
      var rest := Filter(ranked[1..], NotNamed(names));
      assert Names([ranked[0]] + rest) == [ranked[0].0] + Names(rest);
    }
  }

  function Order(chunkHash: string, ids: seq<string>): seq<string> {
    Names(SortBy(Measured(chunkHash, ids), ByDistance()))
  }

  lemma OrderFilter(chunkHash: string, ids: seq<string>, names: seq<string>)
    ensures Order(chunkHash, Filter(ids, NotIn(names))) == Filter(Order(chunkHash, ids), NotIn(names))
  {
    MeasuredFilter(chunkHash, ids, names);
    SortFilter(Measured(chunkHash, ids), ByDistance(), NotNamed(names));
    NamesFilter(SortBy(Measured(chunkHash, ids), ByDistance()), names);
  }

  lemma TargetsAreFirst(c: Cycle, chunkHash: string, aliveHolders: seq<string>)
    requires |aliveHolders| < c.k
    ensures Targets(c, chunkHash, aliveHolders) ==
            Take(Order(chunkHash, Candidates(c, aliveHolders)), c.k - |aliveHolders|)
  {
  }

  function Fails(sends: string -> bool): string -> bool {
    (p: string) => !sends(p)
  }

  lemma {:induction false} FilterSplits(xs: seq<string>, p: string -> bool)
    ensures |Filter(xs, p)| + |Filter(xs, Fails(p))| == |xs|
  {
    if |xs| > 0 {
      FilterSplits(xs[1..], p);
    }
  }

  lemma {:induction false} SameFilter(xs: seq<string>, p: string -> bool, q: string -> bool)
    requires forall x :: x in xs ==> p(x) == q(x)
    ensures Filter(xs, p) == Filter(xs, q)
  {
    if |xs| > 0 {
      SameFilter(xs[1..], p, q);
    }
  }

  /** The peers that remain first in line are the ones that failed. */
  lemma FailuresComeFirst(order: seq<string>, needed: nat, sends: string -> bool)
    requires Distinct(order)
    ensures var first := Take(order, needed);
            var sent := Filter(first, sends);
            && |sent| <= needed
            && Take(Filter(order, NotIn(sent)), needed - |sent|) == Filter(first, Fails(sends))
  {
    var first, sent := Take(order, needed), Filter(Take(order, needed), sends);
    TakeDistinct(order, needed);
    SentAndFailed(first, sends);
    FilterConcat(first, order[|first|..], NotIn(sent));
    if |first| < needed {
      assert order[|first|..] == [];
    }
  }

  lemma SentAndFailed(first: seq<string>, sends: string -> bool)
    requires Distinct(first)
    ensures |Filter(first, sends)| + |Filter(first, Fails(sends))| == |first|
    ensures Filter(first, NotIn(Filter(first, sends))) == Filter(first, Fails(sends))
  {
    FilterMembers(first, sends);
    FilterSplits(first, sends);
    SameFilter(first, NotIn(Filter(first, sends)), Fails(sends));
  }

  lemma TakeDistinct(order: seq<string>, needed: nat)
    requires Distinct(order)
    ensures Distinct(Take(order, needed))
    ensures order == Take(order, needed) + order[|Take(order, needed)|..]
  {
  }

  lemma StillAlive(c: Cycle, chunkHash: string, aliveHolders: seq<string>)
    requires Distinct(c.alive) && |aliveHolders| < c.k && forall h :: h in aliveHolders ==> IsAlive(c)(h)
    ensures var sent := Filter(Targets(c, chunkHash, aliveHolders), Sends(c, chunkHash));
            && AliveHolders(c, aliveHolders + sent) == aliveHolders + sent
            && Candidates(c, aliveHolders + sent) == Filter(Candidates(c, aliveHolders), NotIn(sent))
  {
    var sent := Filter(Targets(c, chunkHash, aliveHolders), Sends(c, chunkHash));
    TargetsAreNew(c, chunkHash, aliveHolders);
    FilterMembers(Targets(c, chunkHash, aliveHolders), Sends(c, chunkHash));
    FilterMembers(aliveHolders + sent, IsAlive(c));
    FilterTwice(c.alive, NotIn(aliveHolders), NotIn(sent), NotIn(aliveHolders + sent));
  }

  /** The targets of a cycle that did not get the chunk. */
  function Failed(c: Cycle, chunkHash: string, aliveHolders: seq<string>): seq<string>
    requires |aliveHolders| < c.k
  {
    Filter(Targets(c, chunkHash, aliveHolders), Fails(Sends(c, chunkHash)))
  }

  /** The same node sees the same peers and chunks again; its sends may fare differently. */
  ghost predicate NextCycle(c: Cycle, d: Cycle) {
    d == c.(sends := d.sends)
  }

  lemma SameView(c: Cycle, d: Cycle, chunkHash: string, holders: seq<string>)
    requires NextCycle(c, d)
    ensures AliveHolders(d, holders) == AliveHolders(c, holders)
    ensures |holders| < c.k ==> Targets(d, chunkHash, holders) == Targets(c, chunkHash, holders)
  {
    SameFilter(holders, IsAlive(c), IsAlive(d));
  }

  /** A second cycle under the same alive set tries exactly the peers that failed in the first, in
      the same order, and adds those that now get the chunk. */
  lemma SecondCycle(c: Cycle, d: Cycle, chunkHash: string, holders: seq<string>)
    requires Distinct(c.alive) && NextCycle(c, d)
    ensures var alive := AliveHolders(c, holders);
            var once := Healed(c, chunkHash, holders);
            Healed(d, chunkHash, once) ==
            if |alive| >= c.k || chunkHash !in c.stored then once
            else once + Filter(Failed(c, chunkHash, alive), Sends(d, chunkHash))
  {
    var alive := AliveHolders(c, holders);
    FilterMembers(holders, IsAlive(c));
    SameView(c, d, chunkHash, Healed(c, chunkHash, holders));
    if |alive| < c.k {
      if chunkHash !in c.stored {
        FilterMembers(alive, IsAlive(c));
      } else {
        OnlyFailedAgain(c, d, chunkHash, alive);
      }
    }
  }

  lemma OnlyFailedAgain(c: Cycle, d: Cycle, chunkHash: string, alive: seq<string>)
    requires Distinct(c.alive) && NextCycle(c, d)
    requires |alive| < c.k && chunkHash in c.stored && forall h :: h in alive ==> IsAlive(c)(h)
    ensures var after := alive + Added(c, chunkHash, alive);
            Healed(d, chunkHash, after) == after + Filter(Failed(c, chunkHash, alive), Sends(d, chunkHash))
  {
    var after := alive + Added(c, chunkHash, alive);
    StillAlive(c, chunkHash, alive);
    SameView(c, d, chunkHash, after);
    if |after| < c.k {
      NextTargetsFailed(c, chunkHash, alive);
    } else {
      FilterSplits(Targets(c, chunkHash, alive), Sends(c, chunkHash));
      TargetsAreNew(c, chunkHash, alive);
      assert Failed(c, chunkHash, alive) == [];
    }
  }

  lemma NoneGotIt(failed: seq<string>, sends: string -> bool)
    ensures Filter(failed, sends) == [] <==> forall p :: p in failed ==> !sends(p)
  {
    FilterMembers(failed, sends);
    forall p | p in failed && sends(p) ensures p in Filter(failed, sends) {
    }
  }

  /** A second cycle changes the entry of a chunk exactly when the entry was not full, the chunk is
      stored here and some peer to which the first cycle failed to send it now gets it. */
  lemma SecondCycleChangesNothing(c: Cycle, d: Cycle, chunkHash: string, holders: seq<string>)
    requires Distinct(c.alive) && NextCycle(c, d)
    ensures var alive := AliveHolders(c, holders);
            var once := Healed(c, chunkHash, holders);
            Healed(d, chunkHash, once) == once
            <==> (|alive| >= c.k || chunkHash !in c.stored
                  || forall p :: p in Targets(c, chunkHash, alive) && !c.sends(chunkHash, p) ==> !d.sends(chunkHash, p))
  {
    var alive := AliveHolders(c, holders);
    SecondCycle(c, d, chunkHash, holders);
    if |alive| < c.k {
      NoneGotIt(Failed(c, chunkHash, alive), Sends(d, chunkHash));
      FilterMembers(Targets(c, chunkHash, alive), Fails(Sends(c, chunkHash)));
      var once := Healed(c, chunkHash, holders);
      var more := Filter(Failed(c, chunkHash, alive), Sends(d, chunkHash));
      assert once + more == once ==> |more| == 0;
      assert once + [] == once;
    }
  }

  /** In particular when each send fares as before, or the first cycle had no failure. */
  lemma HealingIsIdempotent(c: Cycle, d: Cycle, chunkHash: string, holders: seq<string>)
    requires Distinct(c.alive) && NextCycle(c, d)
    requires d == c || forall p :: p in c.alive ==> c.sends(chunkHash, p)
    ensures Healed(d, chunkHash, Healed(c, chunkHash, holders)) == Healed(c, chunkHash, holders)
  {
    SecondCycleChangesNothing(c, d, chunkHash, holders);
    var alive := AliveHolders(c, holders);
    if |alive| < c.k {
      TargetsAreNew(c, chunkHash, alive);
    }
  }

  lemma NextTargetsFailed(c: Cycle, chunkHash: string, alive: seq<string>)
    requires Distinct(c.alive) && |alive| < c.k
    requires var added := Added(c, chunkHash, alive);
             |alive + added| < c.k && Candidates(c, alive + added) == Filter(Candidates(c, alive), NotIn(added))
    ensures Targets(c, chunkHash, alive + Added(c, chunkHash, alive)) ==
            Filter(Targets(c, chunkHash, alive), Fails(Sends(c, chunkHash)))
  {
    var order, needed := Order(chunkHash, Candidates(c, alive)), c.k - |alive|;
    assert Targets(c, chunkHash, alive) == Take(order, needed) by {
      TargetsAreFirst(c, chunkHash, alive);
    }
    assert Take(Filter(order, NotIn(Added(c, chunkHash, alive))), needed - |Added(c, chunkHash, alive)|)
           == Filter(Take(order, needed), Fails(Sends(c, chunkHash))) by {
      OrderDistinct(c, chunkHash, alive);
      FailuresComeFirst(order, needed, Sends(c, chunkHash));
    }
    TargetsAfter(c, chunkHash, alive, Added(c, chunkHash, alive));
  }

  lemma TargetsAfter(c: Cycle, chunkHash: string, alive: seq<string>, added: seq<string>)
    requires |alive + added| < c.k && Candidates(c, alive + added) == Filter(Candidates(c, alive), NotIn(added))
    ensures Targets(c, chunkHash, alive + added) ==
            Take(Filter(Order(chunkHash, Candidates(c, alive)), NotIn(added)), c.k - |alive| - |added|)
  {
    TargetsAreFirst(c, chunkHash, alive + added);
    OrderFilter(chunkHash, Candidates(c, alive), added);
  }

  lemma OrderDistinct(c: Cycle, chunkHash: string, alive: seq<string>)
    requires Distinct(c.alive)
    ensures Distinct(Order(chunkHash, Candidates(c, alive)))
  {
    FilterMembers(c.alive, NotIn(alive));
    SortedMeasured(chunkHash, Candidates(c, alive));
  }
}
