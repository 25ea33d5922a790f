/** Placing the key shares with their holders and releasing them to the recipient
    (backend/api/routes.py:1827-1860,1885-1908,1943-2026, backend/storage/db.py:497-519). */
module KeyShares {
  import opened Seqs
  import opened Threshold
  import B = SealedBoxes

  // ---------------------------------------------------------------- one holder

  datatype Row = Row(m: int, n: int, blob: Bytes, uploader: string, allowed: seq<string>)

  /** The key_shares table: the primary key is (file_hash, share_index). */
  type Table = map<(string, int), Row>

  class KeyShareTable {
    var rows: Table

    constructor ()
      ensures rows == map[]
    {
      rows := map[];
    }

    /** INSERT OR REPLACE. */
    method StoreKeyShare(fileHash: string, index: int, row: Row)
      modifies this
      ensures rows == old(rows)[(fileHash, index) := row]
    {
      rows := rows[(fileHash, index) := row];
    }

    /** `fetchone` of the rows of a file; `pick` is the one the engine returns first. */
    method GetKeyShare(fileHash: string, pick: (Table, string) -> Option<int>) returns (found: Option<(int, Row)>)
      requires FetchesOne(pick)
      ensures found.None? <==> forall k :: (fileHash, k) !in rows
      ensures found.Some? ==> (fileHash, found.value.0) in rows && found.value.1 == rows[(fileHash, found.value.0)]
      ensures found == Fetched(rows, fileHash, pick)
    {
      assert Fetches(pick, rows, fileHash);
      var k := pick(rows, fileHash);
      found := if k.Some? then Some((k.value, rows[(fileHash, k.value)])) else None;
    }
  }

  ghost predicate Fetches(pick: (Table, string) -> Option<int>, rows: Table, fileHash: string) {
    match pick(rows, fileHash)
    case Some(k) => (fileHash, k) in rows
    case None => forall k :: (fileHash, k) !in rows
  }

  ghost predicate FetchesOne(pick: (Table, string) -> Option<int>) {
    forall rows: Table, fileHash: string :: Fetches(pick, rows, fileHash)
  }

  function Fetched(rows: Table, fileHash: string, pick: (Table, string) -> Option<int>): Option<(int, Row)> {
    var k := pick(rows, fileHash);
    if k.Some? && (fileHash, k.value) in rows then Some((k.value, rows[(fileHash, k.value)])) else None
  }

  /** What `/peer/keyshare/store` keeps; `accepted` is whether the chat with the sender is. */
  function StoreShare(rows: Table, accepted: bool, fileHash: string, index: int, row: Row): Result<Table> {
    if row.uploader == "" || fileHash == "" || |row.blob| == 0 then Err("400 missing required fields")
    else if !(1 <= row.m <= row.n <= 254) then Err("400 bad (m, n)")
    else if !accepted then Err("403 no accepted chat")
    else Ok(rows[(fileHash, index) := row])
  }

  /** What `/peer/keyshare/release` answers: the share is opened with the private key of the holder
      and sealed again for the requester. */
  function ReleaseShare(b: B.Box, priv: int, rows: Table, pick: (Table, string) -> Option<int>, requester: string,
                        requesterKey: Option<int>, fileHash: string, coin: nat): Result<Release> {
    if requester == "" || requesterKey.None? || fileHash == "" then Err("400 missing fields")
    else
      var rec := Fetched(rows, fileHash, pick);
      if rec.None? then Err("404 no key share")
      else if requester !in rec.value.1.allowed then Err("403 not authorized")
      else
        var share := b.open(priv, rec.value.1.blob);
        if share.None? then Err("500 unwrap failed")
        else Ok(Release(rec.value.0, b.seal(requesterKey.value, share.value, coin)))
  }

  // ---------------------------------------------------------------- choosing holders

  /** A chat thread of the uploader's database. */
  datatype Thread = Thread(peer: string, accepted: bool)

  function Candidates(chats: seq<Thread>, reachable: set<string>, recipient: string): seq<string> {
    if |chats| == 0 then []
    else
      var c := chats[0];
      (if c.accepted && c.peer != recipient && c.peer in reachable then [c.peer] else []) + Candidates(chats[1..], reachable, recipient)
  }

  predicate HolderAccepted(chats: seq<Thread>, h: string) {
    exists i :: 0 <= i < |chats| && chats[i] == Thread(h, true)
  }

  predicate HolderRefused(chats: seq<Thread>, reachable: set<string>, me: string, h: string) {
    h == me || !HolderAccepted(chats, h) || h !in reachable
  }

  predicate AnyRefused(chats: seq<Thread>, reachable: set<string>, me: string, holders: seq<string>) {
    exists i :: 0 <= i < |holders| && HolderRefused(chats, reachable, me, holders[i])
  }

  /** `reachable` are the alive peers with a known public key. An explicit list is used as it is given,
      repetitions included. */
  function ChooseHolders(chats: seq<Thread>, reachable: set<string>, me: string, recipient: string, explicit: seq<string>,
                         n: nat): Result<seq<string>> {
    var candidates := Candidates(chats, reachable, recipient);
    if |explicit| == 0 && |candidates| < n then Err("409 too few candidates")
    else
      var holders := if |explicit| > 0 then explicit else candidates[..n];
      if |holders| != n then Err("400 wrong number of holders")
      else if AnyRefused(chats, reachable, me, holders) then Err("holder refused")
      else Ok(holders)
  }

  predicate DistinctPeers(chats: seq<Thread>) {
    forall i, j :: 0 <= i < j < |chats| ==> chats[i].peer != chats[j].peer
  }

  lemma {:induction false} CandidatesAreChats(chats: seq<Thread>, reachable: set<string>, recipient: string)
    ensures forall h :: h in Candidates(chats, reachable, recipient) ==> h != recipient && h in reachable && HolderAccepted(chats, h)
    ensures DistinctPeers(chats) ==> Distinct(Candidates(chats, reachable, recipient))
  {
    if |chats| > 0 {
      var rest := Candidates(chats[1..], reachable, recipient);
      CandidatesAreChats(chats[1..], reachable, recipient);
      forall h | h in rest ensures HolderAccepted(chats, h) && (DistinctPeers(chats) ==> h != chats[0].peer) {
        var i :| 0 <= i < |chats[1..]| && chats[1..][i] == Thread(h, true);
        assert chats[i + 1] == Thread(h, true);
      }
      if chats[0].accepted && chats[0].peer != recipient && chats[0].peer in reachable {
        assert chats[0] == Thread(chats[0].peer, true);
      }
    }
  }

  /** Chosen holders are n accepted, reachable peers other than the uploader. Picked automatically they
      are distinct and never the recipient; an explicit list may break both. */
  lemma HoldersAreSound(chats: seq<Thread>, reachable: set<string>, me: string, recipient: string, explicit: seq<string>, n: nat)
    requires DistinctPeers(chats)
    ensures var r := ChooseHolders(chats, reachable, me, recipient, explicit, n);
            r.Ok? ==>
              && |r.value| == n
              && (forall i :: 0 <= i < n ==> r.value[i] != me && r.value[i] in reachable && HolderAccepted(chats, r.value[i]))
              && (explicit == [] ==> Distinct(r.value) && recipient !in r.value)
  {
    CandidatesAreChats(chats, reachable, recipient);
    var r := ChooseHolders(chats, reachable, me, recipient, explicit, n);
    if r.Ok? {
      forall i | 0 <= i < n ensures !HolderRefused(chats, reachable, me, r.value[i]) {
      }
      if explicit == [] {
        forall i | 0 <= i < n ensures r.value[i] == Candidates(chats, reachable, recipient)[i] && r.value[i] != recipient {
          assert r.value[i] in Candidates(chats, reachable, recipient);
        }
      }
    }
  }

  // ---------------------------------------------------------------- distributing the shares

  /** The tables of all nodes. */
  type Network = map<string, Table>

  function TableOf(net: Network, node: string): Table {
    if node in net then net[node] else map[]
  }

  /** One upload: who sends what to whom. `keys` are the holders' public keys as the uploader knows
      them. */
  datatype Upload = Upload(fileHash: string, uploader: string, recipient: string, m: int, n: int, shares: seq<Share>,
                           holders: seq<string>, keys: string -> int, coins: nat -> nat)

  function RowAt(b: B.Box, u: Upload, i: nat): Row
    requires i < |u.shares| && i < |u.holders|
  {
    Row(u.m, u.n, b.seal(u.keys(u.holders[i]), u.shares[i].payload, u.coins(i)), u.uploader, [u.recipient])
  }

  /** The tables after the first i shares were stored. */
  function Placed(b: B.Box, u: Upload, net: Network, i: nat): Network
    requires i <= |u.shares| && i <= |u.holders|
  {
    if i == 0 then net
    else
      var before, h := Placed(b, u, net, i - 1), u.holders[i - 1];
      before[h := TableOf(before, h)[(u.fileHash, u.shares[i - 1].index) := RowAt(b, u, i - 1)]]
  }

  predicate Accepts(u: Upload, consents: set<string>) {
    && u.uploader != "" && u.fileHash != "" && 1 <= u.m <= u.n <= 254
    && forall i :: 0 <= i < |u.holders| && i < |u.shares| ==> u.holders[i] in consents
  }

  /** Every share goes to its holder, or the upload is aborted at the first one that refuses. */
  method DistributeShares(b: B.Box, u: Upload, net: Network, consents: set<string>) returns (ok: bool, now: Network)
    requires B.Contract(b) && |u.shares| == |u.holders|
    ensures ok <==> Accepts(u, consents) || |u.shares| == 0
    ensures ok ==> now == Placed(b, u, net, |u.shares|)
    ensures !ok ==> exists i: nat :: i < |u.shares| && now == Placed(b, u, net, i)
  {
    now := net;
    for i := 0 to |u.shares|
      invariant now == Placed(b, u, net, i)
      invariant i > 0 ==> u.uploader != "" && u.fileHash != "" && 1 <= u.m <= u.n <= 254
      invariant forall j :: 0 <= j < i ==> u.holders[j] in consents
    {
      var h := u.holders[i];
      var wrapped := b.seal(u.keys(h), u.shares[i].payload, u.coins(i));
      assert B.Longer(b, u.keys(h), u.shares[i].payload, u.coins(i));
      var stored := StoreShare(TableOf(now, h), h in consents, u.fileHash, u.shares[i].index,
                               Row(u.m, u.n, wrapped, u.uploader, [u.recipient]));
      if stored.Err? {
        return false, now;
      }
      now := now[h := stored.value];
    }
    return true, now;
  }

  predicate DistinctShares(u: Upload) {
    DistinctIndices(u.shares)
  }

  /** After the upload a table holds what it held before and exactly the shares placed there. */
  lemma {:induction false} PlacedRows(b: B.Box, u: Upload, net: Network, i: nat, h: string)
    requires i <= |u.shares| && i <= |u.holders| && DistinctShares(u)
    requires forall k :: (u.fileHash, k) !in TableOf(net, h)
    ensures forall k :: (u.fileHash, k) in TableOf(Placed(b, u, net, i), h) ==> PlacedAs(b, u, net, i, h, k)
    ensures forall j :: 0 <= j < i && u.holders[j] == h ==> (u.fileHash, u.shares[j].index) in TableOf(Placed(b, u, net, i), h)
  {
    if i > 0 {
      PlacedRows(b, u, net, i - 1, h);
      forall k | (u.fileHash, k) in TableOf(Placed(b, u, net, i), h) ensures PlacedAs(b, u, net, i, h, k) {
        if !(h == u.holders[i - 1] && k == u.shares[i - 1].index) {
          assert PlacedAs(b, u, net, i - 1, h, k);
        }
      }
    }
  }

  /** Row k of the file at h is one of the first i shares, placed there as it was sealed. */
  ghost predicate PlacedAs(b: B.Box, u: Upload, net: Network, i: nat, h: string, k: int)
    requires i <= |u.shares| && i <= |u.holders|
  {
    exists j: nat :: j < i && u.holders[j] == h && u.shares[j].index == k
                     && (u.fileHash, k) in TableOf(Placed(b, u, net, i), h)
                     && TableOf(Placed(b, u, net, i), h)[(u.fileHash, k)] == RowAt(b, u, j)
  }

  // ---------------------------------------------------------------- the recipient asks

  /** The private keys of the nodes and the requests that get through. */
  datatype World = World(b: B.Box, priv: string -> int, pick: (Table, string) -> Option<int>, reachable: set<string>, coins: nat -> nat)

  function ReplyAt(w: World, u: Upload, net: Network, i: nat): Option<Release>
    requires i < |u.holders|
  {
    var h := u.holders[i];
    if h !in w.reachable then None
    else
      match ReleaseShare(w.b, w.priv(h), TableOf(net, h), w.pick, u.recipient, Some(w.b.publicKey(w.priv(u.recipient))), u.fileHash, w.coins(i))
      case Ok(r) => Some(r)
      case Err(_) => None
  }

  function Replies(w: World, u: Upload, net: Network): seq<Option<Release>> {
    seq(|u.holders|, i requires 0 <= i < |u.holders| => ReplyAt(w, u, net, i))
  }

  function RecipientOpens(w: World, u: Upload): Bytes -> Option<Bytes> {
    (wrapped: Bytes) => w.b.open(w.priv(u.recipient), wrapped)
  }

  function RecipientAnswers(w: World, u: Upload, net: Network, alive: set<string>): seq<Option<Share>> {
    AllAnswers(u.holders, alive, Replies(w, u, net), RecipientOpens(w, u))
  }

  ghost predicate Honest(w: World, u: Upload, net: Network) {
    && B.Contract(w.b) && FetchesOne(w.pick)
    && |u.shares| == |u.holders| && DistinctShares(u) && u.recipient != "" && u.fileHash != ""
    && (forall i :: 0 <= i < |u.holders| ==> u.keys(u.holders[i]) == w.b.publicKey(w.priv(u.holders[i])))
    && (forall i, k :: 0 <= i < |u.holders| ==> (u.fileHash, k) !in TableOf(net, u.holders[i]))
  }

  /** The row a holder finds for the file is one that was placed with it. */
  lemma PickedRow(w: World, u: Upload, net: Network, i: nat) returns (j: nat)
    requires Honest(w, u, net) && i < |u.holders|
    ensures j < |u.shares| && u.holders[j] == u.holders[i]
    ensures Fetched(TableOf(Placed(w.b, u, net, |u.shares|), u.holders[i]), u.fileHash, w.pick)
            == Some((u.shares[j].index, RowAt(w.b, u, j)))
  {
    var h, now := u.holders[i], Placed(w.b, u, net, |u.shares|);
    PlacedRows(w.b, u, net, |u.shares|, h);
    assert (u.fileHash, u.shares[i].index) in TableOf(now, h);
    assert Fetches(w.pick, TableOf(now, h), u.fileHash);
    var k := w.pick(TableOf(now, h), u.fileHash).value;
    assert PlacedAs(w.b, u, net, |u.shares|, h, k);
    j :| j < |u.shares| && u.holders[j] == h && u.shares[j].index == k
         && TableOf(now, h)[(u.fileHash, k)] == RowAt(w.b, u, j);
  }

  /** A holder that is alive and reachable answers with one of the shares placed with it; any other holder
      does not answer. */
  lemma AnswerIsPlaced(w: World, u: Upload, net: Network, alive: set<string>, i: nat) returns (j: nat)
    requires Honest(w, u, net) && i < |u.holders|
    ensures var a := RecipientAnswers(w, u, Placed(w.b, u, net, |u.shares|), alive);
            && (a[i].Some? <==> u.holders[i] in alive && u.holders[i] in w.reachable)
            && (a[i].Some? ==> j < |u.shares| && u.holders[j] == u.holders[i] && a[i].value == u.shares[j])
  {
    j := PickedRow(w, u, net, i);
    OpensTwice(w, u, j, i);
    assert u.recipient in RowAt(w.b, u, j).allowed;
  }

  /** Sealed to the holder, opened there, sealed to the recipient, opened there: the same payload. */
  lemma OpensTwice(w: World, u: Upload, j: nat, i: nat)
    requires B.Contract(w.b) && j < |u.shares| && j < |u.holders|
    requires u.keys(u.holders[j]) == w.b.publicKey(w.priv(u.holders[j]))
    ensures var share := w.b.open(w.priv(u.holders[j]), RowAt(w.b, u, j).blob);
            && share == Some(u.shares[j].payload)
            && RecipientOpens(w, u)(w.b.seal(w.b.publicKey(w.priv(u.recipient)), share.value, w.coins(i))) == share
  {
    assert B.Opens(w.b, w.priv(u.holders[j]), u.shares[j].payload, u.coins(j));
    assert B.Opens(w.b, w.priv(u.recipient), u.shares[j].payload, w.coins(i));
  }

  /** Position by position: who answers, and with whose share. */
  predicate Answers(u: Upload, up: set<string>, a: seq<Option<Share>>) {
    && |a| == |u.holders| == |u.shares|
    && forall i :: 0 <= i < |a| ==> (a[i].Some? <==> u.holders[i] in up)
  }

  ghost predicate FromShares(u: Upload, a: seq<Option<Share>>)
    requires |a| == |u.holders| == |u.shares|
  {
    forall i :: 0 <= i < |a| && a[i].Some? ==> FromShare(u, a[i].value, u.holders[i])
  }

  ghost predicate FromShare(u: Upload, share: Share, h: string)
    requires |u.holders| == |u.shares|
  {
    exists q :: 0 <= q < |u.holders| && u.holders[q] == h && share == u.shares[q]
  }

  ghost predicate SameReplies(u: Upload, a: seq<Option<Share>>)
    requires |a| == |u.holders|
  {
    forall p, q :: 0 <= p < q < |a| && a[p].Some? && a[q].Some? && u.holders[p] == u.holders[q] ==> a[p] == a[q]
  }

  lemma UploadAnswers(w: World, u: Upload, net: Network, alive: set<string>)
    requires Honest(w, u, net)
    ensures var a := RecipientAnswers(w, u, Placed(w.b, u, net, |u.shares|), alive);
            Answers(u, alive * w.reachable, a) && FromShares(u, a)
  {
    var a := RecipientAnswers(w, u, Placed(w.b, u, net, |u.shares|), alive);
    forall i | 0 <= i < |u.holders|
      ensures a[i].Some? <==> u.holders[i] in alive * w.reachable
      ensures a[i].Some? ==> FromShare(u, a[i].value, u.holders[i])
    {
      var j := AnswerIsPlaced(w, u, net, alive, i);
    }
  }

  /** Asking one holder twice gives one share twice: the table has one first row. */
  lemma SameReply(w: World, u: Upload, now: Network, alive: set<string>, p: nat, q: nat)
    requires |u.holders| == |u.shares| && DistinctShares(u)
    requires p < |u.holders| && q < |u.holders| && u.holders[p] == u.holders[q]
    requires var a := RecipientAnswers(w, u, now, alive);
             a[p].Some? && a[q].Some? && FromShare(u, a[p].value, u.holders[p]) && FromShare(u, a[q].value, u.holders[q])
    ensures RecipientAnswers(w, u, now, alive)[p] == RecipientAnswers(w, u, now, alive)[q]
  {
    var a := RecipientAnswers(w, u, now, alive);
    assert a[p].value.index == a[q].value.index;
    var j :| 0 <= j < |u.holders| && a[p].value == u.shares[j];
    var k :| 0 <= k < |u.holders| && a[q].value == u.shares[k];
    IndexIdentifies(u.shares, j, k);
  }

  lemma IndexIdentifies(shares: seq<Share>, j: nat, k: nat)
    requires DistinctIndices(shares) && j < |shares| && k < |shares| && shares[j].index == shares[k].index
    ensures j == k
  {
  }

  lemma UploadReplies(w: World, u: Upload, now: Network, alive: set<string>)
    requires |u.holders| == |u.shares| && DistinctShares(u)
    requires FromShares(u, RecipientAnswers(w, u, now, alive))
    ensures SameReplies(u, RecipientAnswers(w, u, now, alive))
  {
    var a := RecipientAnswers(w, u, now, alive);
    forall p, q | 0 <= p < q < |a| && a[p].Some? && a[q].Some? && u.holders[p] == u.holders[q] ensures a[p] == a[q] {
      SameReply(w, u, now, alive, p, q);
    }
  }

  lemma RepliesAreGenuine(u: Upload, a: seq<Option<Share>>)
    requires |a| == |u.holders| == |u.shares| && FromShares(u, a) && SameReplies(u, a)
    ensures Genuine(u.holders, u.shares, a)
  {
    forall p | 0 <= p < |a| && a[p].Some?
      ensures exists q :: 0 <= q < |u.holders| && u.holders[q] == u.holders[p] && a[p].value == u.shares[q]
    {
      assert FromShare(u, a[p].value, u.holders[p]);
    }
  }

  lemma UploadIsGenuine(w: World, u: Upload, net: Network, alive: set<string>)
    requires Honest(w, u, net)
    ensures var a := RecipientAnswers(w, u, Placed(w.b, u, net, |u.shares|), alive);
            Genuine(u.holders, u.shares, a) && Answers(u, alive * w.reachable, a)
  {
    UploadAnswers(w, u, net, alive);
    UploadReplies(w, u, Placed(w.b, u, net, |u.shares|), alive);
    RepliesAreGenuine(u, RecipientAnswers(w, u, Placed(w.b, u, net, |u.shares|), alive));
  }

  /** The whole protocol: after an upload to distinct holders, the recipient gets the uploader's exact
      key if and only if at least m of the holders are alive and reachable. */
  lemma ThresholdQuorum(w: World, s: Scheme, key: Bytes, m: nat, n: nat, u: Upload, net: Network, alive: set<string>)
    requires Threshold.Contract(s) && SharesOf(s, key, m, n, u.shares) && Honest(w, u, net) && Distinct(u.holders)
    ensures var r := Recovered(s, FirstAnswers(RecipientAnswers(w, u, Placed(w.b, u, net, |u.shares|), alive), m), m);
            var up := ToSet(u.holders) * alive * w.reachable;
            && (r == Ok(key) <==> |up| >= m)
            && (r.Err? <==> |up| < m)
  {
    UploadIsGenuine(w, u, net, alive);
    QuorumCounts(s, key, m, n, u, alive * w.reachable, RecipientAnswers(w, u, Placed(w.b, u, net, |u.shares|), alive));
    assert ToSet(u.holders) * alive * w.reachable == ToSet(u.holders) * (alive * w.reachable);
  }

  lemma QuorumCounts(s: Scheme, key: Bytes, m: nat, n: nat, u: Upload, up: set<string>, a: seq<Option<Share>>)
    requires Threshold.Contract(s) && SharesOf(s, key, m, n, u.shares) && Distinct(u.holders)
    requires Genuine(u.holders, u.shares, a) && Answers(u, up, a)
    ensures var r := Recovered(s, FirstAnswers(a, m), m);
            && (r == Ok(key) <==> |ToSet(u.holders) * up| >= m)
            && (r.Err? <==> |ToSet(u.holders) * up| < m)
  {
    DistinctHoldersQuorum(s, key, m, n, u.holders, u.shares, a);
    AnsweringCount(u, up, a);
  }

  lemma AnsweringCount(u: Upload, up: set<string>, a: seq<Option<Share>>)
    requires Answers(u, up, a) && Distinct(u.holders)
    ensures |set i: nat | i < |a| && a[i].Some?| == |ToSet(u.holders) * up|
  {
    var at := set i: nat | i < |a| && a[i].Some?;
    forall h | h in ToSet(u.holders) * up ensures exists i: nat :: i in at && i < |u.holders| && u.holders[i] == h {
      var i :| 0 <= i < |u.holders| && u.holders[i] == h;
      assert i in at;
    }
    SameCount(u.holders, at, ToSet(u.holders) * up);
  }

  lemma {:induction false} SameCount(holders: seq<string>, at: set<nat>, up: set<string>)
    requires Distinct(holders)
    requires forall i :: i in at ==> i < |holders| && holders[i] in up
    requires forall h :: h in up ==> exists i: nat :: i in at && i < |holders| && holders[i] == h
    ensures |at| == |up|
    decreases |at|
  {
    if at == {} {
      assert up == {};
    } else {
      var i :| i in at;
      var at', up' := at - {i}, up - {holders[i]};
      forall j | j in at' ensures j < |holders| && holders[j] in up' {
      }
      SameCount(holders, at', up');
    }
  }

  /** Nothing removes repetitions from an explicit holder list, and then a quorum is not enough: with both
      shares at one holder and every holder up, the key cannot be recovered. */
  lemma RepeatedHolderLosesKey(w: World, s: Scheme, key: Bytes, h: string, u: Upload, net: Network)
    requires Threshold.Contract(s) && SharesOf(s, key, 2, 2, u.shares) && Honest(w, u, net)
    requires u.holders == [h, h] && h in w.reachable
    ensures var a := RecipientAnswers(w, u, Placed(w.b, u, net, 2), {h});
            && a[0].Some? && a[1].Some?
            && Recovered(s, FirstAnswers(a, 2), 2).Err?
  {
    UploadIsGenuine(w, u, net, {h});
    OneHolderTwice(s, key, h, u, RecipientAnswers(w, u, Placed(w.b, u, net, 2), {h}));
  }

  lemma OneHolderTwice(s: Scheme, key: Bytes, h: string, u: Upload, a: seq<Option<Share>>)
    requires Threshold.Contract(s) && SharesOf(s, key, 2, 2, u.shares) && u.holders == [h, h]
    requires Genuine(u.holders, u.shares, a) && a[0].Some? && a[1].Some?
    ensures Recovered(s, FirstAnswers(a, 2), 2).Err?
  {
    BothPositions(a);
    assert !DistinctHolders(u.holders, FirstPositions(a, 2)) by {
      assert u.holders[FirstPositions(a, 2)[0]] == u.holders[FirstPositions(a, 2)[1]];
    }
    RecoveryIsExact(s, key, 2, 2, u.holders, u.shares, a);
  }

  lemma BothPositions(a: seq<Option<Share>>)
    requires |a| == 2 && a[0].Some? && a[1].Some?
    ensures FirstPositions(a, 2) == [0, 1]
  {
    assert Answering(a, 0) == [] && Answering(a, 1) == [0] && Answering(a, 2) == [0, 1];
  }

  lemma RepetitionsAreChosen(h: string, me: string, recipient: string)
    requires h != me
    ensures ChooseHolders([Thread(h, true)], {h}, me, recipient, [h, h], 2) == Ok([h, h])
  {
    assert [Thread(h, true)][0] == Thread(h, true);
  }
}
