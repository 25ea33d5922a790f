/** Who gets a key share released (backend/api/routes.py:1986-2026), and who does not
    (backend/api/routes.py:977-1022,1885-1912). */
module KeyReleases {
  import opened Seqs
  import opened Threshold
  import opened KeyShares
  import B = SealedBoxes

  // ---------------------------------------------------------------- one request

  /** A share is released if and only if the request is complete, a row of the file is found, the requester
      is one of those it is for, and its box opens; and then it is that row's share, sealed for the
      requester. */
  lemma ReleasedExactly(b: B.Box, priv: int, rows: Table, pick: (Table, string) -> Option<int>, requester: string, key: Option<int>,
                        fileHash: string, coin: nat)
    requires FetchesOne(pick)
    ensures var r := ReleaseShare(b, priv, rows, pick, requester, key, fileHash, coin);
            r.Ok? <==> requester != "" && key.Some? && fileHash != "" && (exists k :: (fileHash, k) in rows)
                       && var row := Found(rows, pick, fileHash); requester in row.allowed && b.open(priv, row.blob).Some?
    ensures var r := ReleaseShare(b, priv, rows, pick, requester, key, fileHash, coin);
            r.Ok? ==> key.Some? && exists k, payload ::
                        && (fileHash, k) in rows && requester in rows[(fileHash, k)].allowed
                        && b.open(priv, rows[(fileHash, k)].blob) == Some(payload)
                        && r.value == Release(k, b.seal(key.value, payload, coin))
  {
    assert Fetches(pick, rows, fileHash);
    var k := pick(rows, fileHash);
    if k.Some? {
      assert (fileHash, k.value) in rows;
    }
  }

  /** The row a lookup of the file finds. */
  ghost function Found(rows: Table, pick: (Table, string) -> Option<int>, fileHash: string): Row
    requires FetchesOne(pick) && exists k :: (fileHash, k) in rows
  {
    assert Fetches(pick, rows, fileHash);
    rows[(fileHash, pick(rows, fileHash).value)]
  }

  /** Nobody is released a share who is in no row of the file. */
  lemma OnlyTheAllowed(b: B.Box, priv: int, rows: Table, pick: (Table, string) -> Option<int>, requester: string, key: Option<int>,
                       fileHash: string, coin: nat)
    requires FetchesOne(pick)
    requires forall k :: (fileHash, k) in rows ==> requester !in rows[(fileHash, k)].allowed
    ensures ReleaseShare(b, priv, rows, pick, requester, key, fileHash, coin).Err?
  {
    assert Fetches(pick, rows, fileHash);
  }

  // ---------------------------------------------------------------- after an upload

  /** Every row of the uploaded file, on any node, is for its recipient alone. */
  ghost predicate ForRecipient(u: Upload, net: Network) {
    forall h, k :: (u.fileHash, k) in TableOf(net, h) ==> TableOf(net, h)[(u.fileHash, k)].allowed == [u.recipient]
  }

  lemma {:induction false} PlacedForRecipient(b: B.Box, u: Upload, net: Network, i: nat)
    requires i <= |u.shares| && i <= |u.holders| && ForRecipient(u, net)
    ensures ForRecipient(u, Placed(b, u, net, i))
  {
    if i > 0 {
      PlacedForRecipient(b, u, net, i - 1);
      var before, now := Placed(b, u, net, i - 1), Placed(b, u, net, i);
      forall h, k | (u.fileHash, k) in TableOf(now, h) ensures TableOf(now, h)[(u.fileHash, k)].allowed == [u.recipient] {
        if !(h == u.holders[i - 1] && k == u.shares[i - 1].index) {
          assert (u.fileHash, k) in TableOf(before, h);
          assert TableOf(now, h)[(u.fileHash, k)] == TableOf(before, h)[(u.fileHash, k)];
        }
      }
    }
  }

  /** After an upload, or the part of it that went through, every node refuses everyone but the recipient,
      whatever key is offered and whatever the coin. */
  lemma OthersAreRefused(w: World, u: Upload, net: Network, i: nat, node: string, requester: string, key: Option<int>, coin: nat)
    requires FetchesOne(w.pick) && ForRecipient(u, net) && i <= |u.shares| && i <= |u.holders|
    requires requester != u.recipient
    ensures ReleaseShare(w.b, w.priv(node), TableOf(Placed(w.b, u, net, i), node), w.pick, requester, key, u.fileHash, coin).Err?
  {
    PlacedForRecipient(w.b, u, net, i);
    OnlyTheAllowed(w.b, w.priv(node), TableOf(Placed(w.b, u, net, i), node), w.pick, requester, key, u.fileHash, coin);
  }

  // ---------------------------------------------------------------- a collection by someone else

  /** What the holders of the upload answer to anyone who asks them. */
  function ReplyTo(w: World, u: Upload, net: Network, requester: string, key: Option<int>, i: nat): Option<Release>
    requires i < |u.holders|
  {
    var h := u.holders[i];
    if h !in w.reachable then None
    else
      match ReleaseShare(w.b, w.priv(h), TableOf(net, h), w.pick, requester, key, u.fileHash, w.coins(i))
      case Ok(r) => Some(r)
      case Err(_) => None
  }

  function RepliesTo(w: World, u: Upload, net: Network, requester: string, key: Option<int>): seq<Option<Release>> {
    seq(|u.holders|, i requires 0 <= i < |u.holders| => ReplyTo(w, u, net, requester, key, i))
  }

  /** The recipient's own collection is the case in which it asks with its own key. */
  lemma RecipientAsksToo(w: World, u: Upload, net: Network)
    ensures RepliesTo(w, u, net, u.recipient, Some(w.b.publicKey(w.priv(u.recipient)))) == Replies(w, u, net)
  {
    forall i | 0 <= i < |u.holders|
      ensures ReplyTo(w, u, net, u.recipient, Some(w.b.publicKey(w.priv(u.recipient))), i) == ReplyAt(w, u, net, i)
    {
    }
  }

  lemma {:induction false} NoneAnswer(answers: seq<Option<Share>>, m: int)
    requires forall i :: 0 <= i < |answers| ==> answers[i].None?
    ensures FirstAnswers(answers, m) == []
  {
    if |answers| > 0 && m > 0 {
      NoneAnswer(answers[1..], m);
    }
  }

  /** A collection run by anyone but the recipient, with any key, any private key and any peers alive,
      collects no share and recovers nothing. */
  lemma OthersCollectNothing(w: World, s: Scheme, u: Upload, net: Network, requester: string, key: Option<int>, alive: set<string>,
                             open: Bytes -> Option<Bytes>, m: nat)
    requires FetchesOne(w.pick) && ForRecipient(u, net) && |u.shares| == |u.holders| && requester != u.recipient
    ensures var replies := RepliesTo(w, u, Placed(w.b, u, net, |u.shares|), requester, key);
            var answers := AllAnswers(u.holders, alive, replies, open);
            FirstAnswers(answers, m) == [] && Recovered(s, FirstAnswers(answers, m), m).Err?
  {
    var now := Placed(w.b, u, net, |u.shares|);
    var replies := RepliesTo(w, u, now, requester, key);
    var answers := AllAnswers(u.holders, alive, replies, open);
    forall i | 0 <= i < |answers| ensures answers[i].None? {
      OthersAreRefused(w, u, net, |u.shares|, u.holders[i], requester, key, w.coins(i));
      assert replies[i].None?;
    }
    NoneAnswer(answers, m);
  }

  // ---------------------------------------------------------------- choosing holders

  /** Candidates are exactly the accepted, reachable peers besides the recipient. */
  lemma {:induction false} CandidatesExactly(chats: seq<Thread>, reachable: set<string>, recipient: string)
    ensures forall h :: h in Candidates(chats, reachable, recipient)
                        <==> h != recipient && h in reachable && HolderAccepted(chats, h)
  {
    if |chats| > 0 {
      var c, rest := chats[0], chats[1..];
      CandidatesExactly(rest, reachable, recipient);
      forall h ensures HolderAccepted(chats, h) <==> c == Thread(h, true) || HolderAccepted(rest, h) {
        if HolderAccepted(rest, h) {
          var i :| 0 <= i < |rest| && rest[i] == Thread(h, true);
          assert chats[i + 1] == Thread(h, true);
        }
        if c == Thread(h, true) {
          assert chats[0] == Thread(h, true);
        }
      }
    }
  }

  /** Enough peers to choose from is all that an automatic choice needs: it succeeds if and only if at least
      n accepted, reachable peers besides the recipient are there (the uploader has no thread with
      itself). */
  lemma ChosenExactly(chats: seq<Thread>, reachable: set<string>, me: string, recipient: string, n: nat)
    requires DistinctPeers(chats) && !HolderAccepted(chats, me)
    ensures var eligible := set h | h in reachable && h != recipient && HolderAccepted(chats, h);
            ChooseHolders(chats, reachable, me, recipient, [], n).Ok? <==> |eligible| >= n
  {
    CandidatesAreChats(chats, reachable, recipient);
    CandidatesExactly(chats, reachable, recipient);
    var candidates := Candidates(chats, reachable, recipient);
    var eligible := set h | h in reachable && h != recipient && HolderAccepted(chats, h);
    DistinctSize(candidates);
    assert ToSet(candidates) == eligible;
    if |candidates| >= n {
      forall i | 0 <= i < n ensures !HolderRefused(chats, reachable, me, candidates[..n][i]) {
        assert candidates[i] in candidates;
      }
    }
  }

  /** An explicit list is used if and only if it has n entries and each is an accepted, reachable peer other
      than the uploader. */
  lemma ExplicitExactly(chats: seq<Thread>, reachable: set<string>, me: string, recipient: string, explicit: seq<string>, n: nat)
    requires explicit != []
    ensures var r := ChooseHolders(chats, reachable, me, recipient, explicit, n);
            (r == Ok(explicit) <==> r.Ok?)
            && (r.Ok? <==> |explicit| == n && forall h :: h in explicit ==> h != me && h in reachable && HolderAccepted(chats, h))
  {
    if AnyRefused(chats, reachable, me, explicit) {
      var i :| 0 <= i < |explicit| && HolderRefused(chats, reachable, me, explicit[i]);
      assert explicit[i] in explicit;
    } else {
      forall h | h in explicit ensures !HolderRefused(chats, reachable, me, h) {
        var i :| 0 <= i < |explicit| && explicit[i] == h;
      }
    }
  }
}
