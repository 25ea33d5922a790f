/** What an invite, an accept, a reject, a message and a share come to when nothing else happens in
    between (backend/api/routes.py:1157-1412, 1426-1484, 1725-1766, 1944-1983). */
module ConsentOutcomes {
  import opened Seqs
  import opened ChatDb
  import opened Consent

  // ---------------------------------------------------------------- one call, undisturbed

  /** From here on only handler h and the handler it posts run, to their ends. */
  ghost predicate Undisturbed(w: World, acts: seq<Action>, h: nat) {
    OnlyRuns(acts, h) && After(w, acts).Some? && After(w, acts).value.handlers == map[]
  }

  /** Handler h can run to its end undisturbed, and whenever it does the result is good. */
  ghost predicate Ends(w: World, h: nat, good: World -> bool) {
    && (exists acts :: Undisturbed(w, acts, h))
    && (forall acts :: Undisturbed(w, acts, h) ==> good(After(w, acts).value))
  }

  /** The same of a call by node y towards x, from its first step on. */
  ghost predicate CallEnds(w: World, y: Node, x: Node, pc: Pc, good: World -> bool) {
    Enabled(w, Call(y, x, pc)) && Ends(Step(w, Call(y, x, pc)), w.next, good)
  }

  /** Nothing is under way. */
  predicate AtRest(w: World) {
    Numbered(w) && w.handlers == map[]
  }

  lemma EndsNow(w: World, h: nat, good: World -> bool)
    requires w.handlers == map[] && good(w)
    ensures Ends(w, h, good)
  {
    assert Undisturbed(w, [], h);
    forall acts: seq<Action> | Undisturbed(w, acts, h) ensures good(After(w, acts).value) {
      NothingRuns(w, acts, h);
    }
  }

  predicate Blocked(w: World, k: nat) {
    k in w.handlers ==> IsWait(w.handlers[k].pc) && k !in w.replies
  }

  /** Only handler g can move, and it ends well whatever name is sent along. */
  lemma EndsLater(w: World, h: nat, g: nat, good: World -> bool)
    requires (g == h || g == h + 1) && Enabled(w, Run(g, false)) && w.handlers != map[]
    requires Blocked(w, if g == h then h + 1 else h)
    requires forall r :: Ends(RunHandler(w, g, r), h, good)
    ensures Ends(w, h, good)
  {
    var rest :| Undisturbed(RunHandler(w, g, false), rest, h);
    AfterFirst(w, Run(g, false), rest);
    assert OnlyRuns([Run(g, false)] + rest, h);
    assert Undisturbed(w, [Run(g, false)] + rest, h);
    forall acts: seq<Action> | Undisturbed(w, acts, h) ensures good(After(w, acts).value) {
      FirstIsForced(w, acts, h, g);
      assert Ends(RunHandler(w, g, acts[0].renamed), h, good);
      assert Undisturbed(RunHandler(w, g, acts[0].renamed), acts[1..], h);
    }
  }

  lemma FirstIsForced(w: World, acts: seq<Action>, h: nat, g: nat)
    requires Undisturbed(w, acts, h) && w.handlers != map[] && (g == h || g == h + 1)
    requires Blocked(w, if g == h then h + 1 else h)
    ensures |acts| > 0 && acts[0].Run? && acts[0].h == g && OnlyRuns(acts[1..], h)
    ensures After(w, acts) == After(RunHandler(w, g, acts[0].renamed), acts[1..])
  {
    assert Enabled(w, acts[0]);
  }

  // ---------------------------------------------------------------- the course of a call

  /** Handler h of node y, about x, is at pc; nothing has changed since w0. */
  predicate Alone(w0: World, w: World, y: Node, x: Node, h: nat, pc: Pc) {
    w.handlers == map[h := Handler(y, x, pc, h)] && w.threads == w0.threads && w.logged == w0.logged
  }

  /** Handler h waits for the handler it has posted to x. */
  predicate Both(w0: World, w: World, y: Node, x: Node, h: nat, wait: Pc, remote: Pc) {
    && w.handlers == map[h := Handler(y, x, wait, h), h + 1 := Handler(x, y, remote, h)]
    && w.threads == w0.threads && w.logged == w0.logged && IsWait(wait) && h !in w.replies
  }

  lemma Called(w: World, y: Node, x: Node, pc: Pc)
    requires AtRest(w) && x != y && IsEntry(pc)
    ensures Enabled(w, Call(y, x, pc))
    ensures var w1 := Step(w, Call(y, x, pc));
            Alone(w, w1, y, x, w.next, pc) && w1.next == w.next + 1 && w.next !in w1.replies
  {
  }

  lemma AloneEnds(w: World, h: nat, good: World -> bool)
    requires h in w.handlers && w.handlers.Keys == {h} && Enabled(w, Run(h, false))
    requires forall r :: Ends(RunHandler(w, h, r), h, good)
    ensures Ends(w, h, good)
  {
    EndsLater(w, h, h, good);
  }

  lemma BothEnd(w: World, h: nat, g: nat, good: World -> bool)
    requires g == h + 1 && w.handlers.Keys == {h, g} && Blocked(w, h) && !IsWait(w.handlers[g].pc)
    requires forall r :: Ends(RunHandler(w, g, r), h, good)
    ensures Ends(w, h, good)
  {
    EndsLater(w, h, g, good);
  }

  // ---------------------------------------------------------------- accept

  /** An accept of a pending invite makes both rows accepted; any other is refused. */
  predicate AcceptDone(w: World, w': World, x: Node, y: Node) {
    var pending := Thread(w, y, x) == Some(IncomingPending);
    && w'.threads == (if pending then w.threads[(x, y) := Accepted][(y, x) := Accepted] else w.threads)
    && w'.logged == w.logged
    && w.next in w'.replies && w'.replies[w.next] == pending
  }

  lemma AcceptFromStore(w: World, w1: World, x: Node, y: Node, h: nat, good: World -> bool)
    requires x != y && w1.handlers == map[h := Handler(y, x, AcceptStore, h)] && w1.logged == w.logged
    requires w1.threads == w.threads[(x, y) := Accepted] && h == w.next && Thread(w, y, x) == Some(IncomingPending)
    requires forall w' :: AcceptDone(w, w', x, y) ==> good(w')
    ensures Ends(w1, h, good)
  {
    var w2 := RunHandler(w1, h, false);
    assert w2.handlers == map[];
    EndsNow(w2, h, good);
    AloneEnds(w1, h, good);
  }

  lemma AcceptFromWait(w: World, w1: World, x: Node, y: Node, h: nat, good: World -> bool)
    requires x != y && w1.handlers == map[h := Handler(y, x, AcceptWait, h)] && w1.logged == w.logged
    requires h in w1.replies && w1.replies[h]
    requires w1.threads == w.threads[(x, y) := Accepted] && h == w.next && Thread(w, y, x) == Some(IncomingPending)
    requires forall w' :: AcceptDone(w, w', x, y) ==> good(w')
    ensures Ends(w1, h, good)
  {
    var w2 := RunHandler(w1, h, false);
    assert w2.handlers == map[h := Handler(y, x, AcceptStore, h)];
    AcceptFromStore(w, w2, x, y, h, good);
    AloneEnds(w1, h, good);
  }

  lemma AcceptFromPeerStore(w: World, w1: World, x: Node, y: Node, h: nat, good: World -> bool)
    requires x != y && Both(w, w1, y, x, h, AcceptWait, PeerAcceptStore)
    requires h == w.next && Thread(w, y, x) == Some(IncomingPending)
    requires forall w' :: AcceptDone(w, w', x, y) ==> good(w')
    ensures Ends(w1, h, good)
  {
    var w2 := RunHandler(w1, h + 1, false);
    assert w2.handlers == map[h := Handler(y, x, AcceptWait, h)];
    AcceptFromWait(w, w2, x, y, h, good);
    BothEnd(w1, h, h + 1, good);
  }

  lemma AcceptFromPeer(w: World, w1: World, x: Node, y: Node, h: nat, good: World -> bool)
    requires x != y && Both(w, w1, y, x, h, AcceptWait, PeerAcceptRead)
    requires h == w.next && Thread(w, y, x) == Some(IncomingPending)
    requires forall w' :: AcceptDone(w, w', x, y) ==> good(w')
    ensures Ends(w1, h, good)
  {
    var w2 := RunHandler(w1, h + 1, false);
    assert w2.handlers == map[h := Handler(y, x, AcceptWait, h), h + 1 := Handler(x, y, PeerAcceptStore, h)];
    AcceptFromPeerStore(w, w2, x, y, h, good);
    BothEnd(w1, h, h + 1, good);
  }

  lemma AcceptFromSend(w: World, w1: World, x: Node, y: Node, h: nat, good: World -> bool)
    requires x != y && Alone(w, w1, y, x, h, AcceptSend) && w1.next == h + 1 && h !in w1.replies
    requires h == w.next && Thread(w, y, x) == Some(IncomingPending)
    requires forall w' :: AcceptDone(w, w', x, y) ==> good(w')
    ensures Ends(w1, h, good)
  {
    var w2 := RunHandler(w1, h, false);
    assert w2.handlers == map[h := Handler(y, x, AcceptWait, h), h + 1 := Handler(x, y, PeerAcceptRead, h)];
    AcceptFromPeer(w, w2, x, y, h, good);
    AloneEnds(w1, h, good);
  }

  /** In every world at rest: y's undisturbed accept of x is possible, answers success exactly when y holds
      an invite of x, and then both rows are accepted. */
  lemma AcceptOutcome(w: World, x: Node, y: Node)
    requires AtRest(w) && x != y
    ensures CallEnds(w, y, x, AcceptRead, w' => AcceptDone(w, w', x, y))
  {
    var good := w' => AcceptDone(w, w', x, y);
    var h := w.next;
    Called(w, y, x, AcceptRead);
    var w1 := Step(w, Call(y, x, AcceptRead));
    var w2 := RunHandler(w1, h, false);
    if Thread(w, y, x) == Some(IncomingPending) {
      assert w2.handlers == map[h := Handler(y, x, AcceptSend, h)];
      AcceptFromSend(w, w2, x, y, h, good);
    } else {
      assert w2.handlers == map[];
      EndsNow(w2, h, good);
    }
    AloneEnds(w1, h, good);
  }

  // ---------------------------------------------------------------- reject

  /** A reject of a pending invite removes both rows; any other is refused. */
  predicate RejectDone(w: World, w': World, x: Node, y: Node) {
    var pending := Thread(w, y, x) == Some(IncomingPending);
    && w'.threads == (if pending then w.threads - {(x, y), (y, x)} else w.threads)
    && w'.logged == w.logged
    && w.next in w'.replies && w'.replies[w.next] == pending
  }

  lemma RejectFromDelete(w: World, w1: World, x: Node, y: Node, h: nat, good: World -> bool)
    requires x != y && w1.handlers == map[h := Handler(y, x, RejectDelete, h)] && w1.logged == w.logged
    requires w1.threads == w.threads - {(x, y)} && h == w.next && Thread(w, y, x) == Some(IncomingPending)
    requires forall w' :: RejectDone(w, w', x, y) ==> good(w')
    ensures Ends(w1, h, good)
  {
    var w2 := RunHandler(w1, h, false);
    assert w2.handlers == map[];
    assert w2.threads == w.threads - {(x, y), (y, x)};
    EndsNow(w2, h, good);
    AloneEnds(w1, h, good);
  }

  lemma RejectFromWait(w: World, w1: World, x: Node, y: Node, h: nat, good: World -> bool)
    requires x != y && w1.handlers == map[h := Handler(y, x, RejectWait, h)] && w1.logged == w.logged && h in w1.replies
    requires w1.threads == w.threads - {(x, y)} && h == w.next && Thread(w, y, x) == Some(IncomingPending)
    requires forall w' :: RejectDone(w, w', x, y) ==> good(w')
    ensures Ends(w1, h, good)
  {
    var w2 := RunHandler(w1, h, false);
    assert w2.handlers == map[h := Handler(y, x, RejectDelete, h)];
    RejectFromDelete(w, w2, x, y, h, good);
    AloneEnds(w1, h, good);
  }

  lemma RejectFromPeer(w: World, w1: World, x: Node, y: Node, h: nat, good: World -> bool)
    requires x != y && Both(w, w1, y, x, h, RejectWait, PeerRejectDelete)
    requires h == w.next && Thread(w, y, x) == Some(IncomingPending)
    requires forall w' :: RejectDone(w, w', x, y) ==> good(w')
    ensures Ends(w1, h, good)
  {
    var w2 := RunHandler(w1, h + 1, false);
    assert w2.handlers == map[h := Handler(y, x, RejectWait, h)];
    RejectFromWait(w, w2, x, y, h, good);
    BothEnd(w1, h, h + 1, good);
  }

  lemma RejectFromSend(w: World, w1: World, x: Node, y: Node, h: nat, good: World -> bool)
    requires x != y && Alone(w, w1, y, x, h, RejectSend) && w1.next == h + 1 && h !in w1.replies
    requires h == w.next && Thread(w, y, x) == Some(IncomingPending)
    requires forall w' :: RejectDone(w, w', x, y) ==> good(w')
    ensures Ends(w1, h, good)
  {
    var w2 := RunHandler(w1, h, false);
    assert w2.handlers == map[h := Handler(y, x, RejectWait, h), h + 1 := Handler(x, y, PeerRejectDelete, h)];
    RejectFromPeer(w, w2, x, y, h, good);
    AloneEnds(w1, h, good);
  }

  /** In every world at rest: y's undisturbed reject of x is possible, answers success exactly when y holds
      an invite of x, and then neither row is left. */
  lemma RejectOutcome(w: World, x: Node, y: Node)
    requires AtRest(w) && x != y
    ensures CallEnds(w, y, x, RejectRead, w' => RejectDone(w, w', x, y))
  {
    var good := w' => RejectDone(w, w', x, y);
    var h := w.next;
    Called(w, y, x, RejectRead);
    var w1 := Step(w, Call(y, x, RejectRead));
    var w2 := RunHandler(w1, h, false);
    if Thread(w, y, x) == Some(IncomingPending) {
      assert w2.handlers == map[h := Handler(y, x, RejectSend, h)];
      RejectFromSend(w, w2, x, y, h, good);
    } else {
      assert w2.handlers == map[];
      EndsNow(w2, h, good);
    }
    AloneEnds(w1, h, good);
  }

  /** A reject whose peer cannot be reached, before or after the request went out, still removes the own
      row, and nothing else. */
  lemma UnreachableReject(w: World, x: Node, y: Node, h: nat)
    requires w.handlers == map[h := Handler(y, x, RejectSend, h)] || w.handlers == map[h := Handler(y, x, RejectWait, h)]
    ensures var acts := [Unreachable(h), Run(h, false)];
            && After(w, acts).Some?
            && var w' := After(w, acts).value;
               w'.threads == w.threads - {(y, x)} && w'.handlers == map[] && h in w'.replies && w'.replies[h]
  {
    var w1 := Step(w, Unreachable(h));
    assert w1.handlers == map[h := Handler(y, x, RejectDelete, h)];
    assert Step(w1, Run(h, false)).handlers == map[];
    Twice(w, Unreachable(h), Run(h, false));
  }

  // ---------------------------------------------------------------- messages, shares, key shares

  /** What y sends to x is logged and acknowledged when both rows are accepted, and is refused otherwise. */
  predicate MailDone(w: World, w': World, x: Node, y: Node, kind: Kind) {
    var open := Thread(w, y, x) == Some(Accepted) && Thread(w, x, y) == Some(Accepted);
    && w'.threads == w.threads
    && w'.logged == (if open then w.logged + {(x, y, kind)} else w.logged)
    && w.next in w'.replies && w'.replies[w.next] == open
  }

  lemma MailFromWait(w: World, w1: World, x: Node, y: Node, kind: Kind, h: nat, good: World -> bool)
    requires x != y && w1.handlers == map[h := Handler(y, x, MailWait(kind), h)] && w1.threads == w.threads && h == w.next
    requires h in w1.replies && Thread(w, y, x) == Some(Accepted)
    requires w1.replies[h] == (Thread(w, x, y) == Some(Accepted))
    requires w1.logged == if Thread(w, x, y) == Some(Accepted) then w.logged + {(x, y, kind)} else w.logged
    requires forall w' :: MailDone(w, w', x, y, kind) ==> good(w')
    ensures Ends(w1, h, good)
  {
    var w2 := RunHandler(w1, h, false);
    assert w2.handlers == map[];
    EndsNow(w2, h, good);
    AloneEnds(w1, h, good);
  }

  lemma MailFromAppend(w: World, w1: World, x: Node, y: Node, kind: Kind, h: nat, good: World -> bool)
    requires x != y && Both(w, w1, y, x, h, MailWait(kind), PeerMailAppend(kind)) && h == w.next
    requires Thread(w, y, x) == Some(Accepted) && Thread(w, x, y) == Some(Accepted)
    requires forall w' :: MailDone(w, w', x, y, kind) ==> good(w')
    ensures Ends(w1, h, good)
  {
    var w2 := RunHandler(w1, h + 1, false);
    assert w2.handlers == map[h := Handler(y, x, MailWait(kind), h)];
    MailFromWait(w, w2, x, y, kind, h, good);
    BothEnd(w1, h, h + 1, good);
  }

  lemma MailFromRefresh(w: World, w1: World, x: Node, y: Node, kind: Kind, h: nat, good: World -> bool)
    requires x != y && Both(w, w1, y, x, h, MailWait(kind), PeerMailRefresh(kind)) && h == w.next
    requires Thread(w, y, x) == Some(Accepted) && Thread(w, x, y) == Some(Accepted)
    requires forall w' :: MailDone(w, w', x, y, kind) ==> good(w')
    ensures Ends(w1, h, good)
  {
    var w2 := RunHandler(w1, h + 1, false);
    assert w2.handlers == map[h := Handler(y, x, MailWait(kind), h), h + 1 := Handler(x, y, PeerMailAppend(kind), h)];
    assert w2.threads == w.threads;
    MailFromAppend(w, w2, x, y, kind, h, good);
    BothEnd(w1, h, h + 1, good);
  }

  lemma MailFromPeer(w: World, w1: World, x: Node, y: Node, kind: Kind, h: nat, good: World -> bool)
    requires x != y && Both(w, w1, y, x, h, MailWait(kind), PeerMailRead(kind)) && h == w.next && Thread(w, y, x) == Some(Accepted)
    requires forall w' :: MailDone(w, w', x, y, kind) ==> good(w')
    ensures Ends(w1, h, good)
  {
    var g := h + 1;
    forall r ensures Ends(RunHandler(w1, g, r), h, good) {
      MailFromPeerRead(w, w1, x, y, kind, h, r, good);
    }
    BothEnd(w1, h, g, good);
  }

  lemma MailFromPeerRead(w: World, w1: World, x: Node, y: Node, kind: Kind, h: nat, renamed: bool, good: World -> bool)
    requires x != y && Both(w, w1, y, x, h, MailWait(kind), PeerMailRead(kind)) && h == w.next && Thread(w, y, x) == Some(Accepted)
    requires forall w' :: MailDone(w, w', x, y, kind) ==> good(w')
    ensures Ends(RunHandler(w1, h + 1, renamed), h, good)
  {
    var w2 := RunHandler(w1, h + 1, renamed);
    if Thread(w, x, y) != Some(Accepted) {
      assert w2.handlers == map[h := Handler(y, x, MailWait(kind), h)];
      MailFromWait(w, w2, x, y, kind, h, good);
    } else if kind == Chat && renamed {
      assert w2.handlers == map[h := Handler(y, x, MailWait(kind), h), h + 1 := Handler(x, y, PeerMailRefresh(kind), h)];
      MailFromRefresh(w, w2, x, y, kind, h, good);
    } else {
      assert w2.handlers == map[h := Handler(y, x, MailWait(kind), h), h + 1 := Handler(x, y, PeerMailAppend(kind), h)];
      MailFromAppend(w, w2, x, y, kind, h, good);
    }
  }

  lemma MailFromSend(w: World, w1: World, x: Node, y: Node, kind: Kind, h: nat, good: World -> bool)
    requires x != y && Alone(w, w1, y, x, h, MailSend(kind)) && w1.next == h + 1 && h !in w1.replies && h == w.next
    requires Thread(w, y, x) == Some(Accepted)
    requires forall w' :: MailDone(w, w', x, y, kind) ==> good(w')
    ensures Ends(w1, h, good)
  {
    var w2 := RunHandler(w1, h, false);
    assert w2.handlers == map[h := Handler(y, x, MailWait(kind), h), h + 1 := Handler(x, y, PeerMailRead(kind), h)];
    MailFromPeer(w, w2, x, y, kind, h, good);
    AloneEnds(w1, h, good);
  }

  /** In every world at rest: what y sends to x undisturbed is logged at x, and answered with success, if and
      only if both have accepted; the rows stay as they are. */
  lemma MailOutcome(w: World, x: Node, y: Node, kind: Kind)
    requires AtRest(w) && x != y
    ensures CallEnds(w, y, x, Pc.MailRead(kind), w' => MailDone(w, w', x, y, kind))
  {
    var good := w' => MailDone(w, w', x, y, kind);
    var h := w.next;
    Called(w, y, x, Pc.MailRead(kind));
    var w1 := Step(w, Call(y, x, Pc.MailRead(kind)));
    var w2 := RunHandler(w1, h, false);
    if Thread(w, y, x) == Some(Accepted) {
      assert w2.handlers == map[h := Handler(y, x, MailSend(kind), h)];
      MailFromSend(w, w2, x, y, kind, h, good);
    } else {
      assert w2.handlers == map[];
      EndsNow(w2, h, good);
    }
    AloneEnds(w1, h, good);
  }

  // ---------------------------------------------------------------- invite

  /** What y's invite of x leaves behind, and what it answers. */
  predicate InviteDone(w: World, w': World, x: Node, y: Node) {
    var status := if TakesForGranted(w, x, y) then Accepted else IncomingPending;
    && w'.threads == (if MayInvite(w, x, y) then w.threads[(x, y) := status][(y, x) := OutgoingPending] else w.threads)
    && w'.logged == w.logged
    && w.next in w'.replies && w'.replies[w.next] == (Thread(w, y, x) != Some(IncomingPending))
  }

  lemma InviteFromStore(w: World, w1: World, x: Node, y: Node, h: nat, good: World -> bool)
    requires x != y && w1.handlers == map[h := Handler(y, x, InviteStore, h)] && w1.logged == w.logged
    requires w1.threads == w.threads[(x, y) := if TakesForGranted(w, x, y) then Accepted else IncomingPending]
    requires h == w.next && MayInvite(w, x, y)
    requires forall w' :: InviteDone(w, w', x, y) ==> good(w')
    ensures Ends(w1, h, good)
  {
    var w2 := RunHandler(w1, h, false);
    assert w2.handlers == map[];
    EndsNow(w2, h, good);
    AloneEnds(w1, h, good);
  }

  lemma InviteFromWait(w: World, w1: World, x: Node, y: Node, h: nat, good: World -> bool)
    requires x != y && w1.handlers == map[h := Handler(y, x, InviteWait, h)] && w1.logged == w.logged
    requires h in w1.replies && w1.replies[h]
    requires w1.threads == w.threads[(x, y) := if TakesForGranted(w, x, y) then Accepted else IncomingPending]
    requires h == w.next && MayInvite(w, x, y)
    requires forall w' :: InviteDone(w, w', x, y) ==> good(w')
    ensures Ends(w1, h, good)
  {
    var w2 := RunHandler(w1, h, false);
    assert w2.handlers == map[h := Handler(y, x, InviteStore, h)];
    InviteFromStore(w, w2, x, y, h, good);
    AloneEnds(w1, h, good);
  }

  lemma InviteFromPeerStore(w: World, w1: World, x: Node, y: Node, h: nat, good: World -> bool)
    requires x != y && h == w.next && MayInvite(w, x, y) && Thread(w, x, y) != Some(Accepted)
    requires Both(w, w1, y, x, h, InviteWait, PeerInviteStore(if TakesForGranted(w, x, y) then Accepted else IncomingPending))
    requires forall w' :: InviteDone(w, w', x, y) ==> good(w')
    ensures Ends(w1, h, good)
  {
    var w2 := RunHandler(w1, h + 1, false);
    assert w2.handlers == map[h := Handler(y, x, InviteWait, h)];
    InviteFromWait(w, w2, x, y, h, good);
    BothEnd(w1, h, h + 1, good);
  }

  lemma InviteFromPeer(w: World, w1: World, x: Node, y: Node, h: nat, good: World -> bool)
    requires x != y && Both(w, w1, y, x, h, InviteWait, PeerInviteRead) && h == w.next && MayInvite(w, x, y)
    requires forall w' :: InviteDone(w, w', x, y) ==> good(w')
    ensures Ends(w1, h, good)
  {
    var w2 := RunHandler(w1, h + 1, false);
    if Thread(w, x, y) == Some(Accepted) {
      assert w2.handlers == map[h := Handler(y, x, InviteWait, h)];
      assert w.threads[(x, y) := Accepted] == w.threads;
      InviteFromWait(w, w2, x, y, h, good);
    } else {
      var status := if TakesForGranted(w, x, y) then Accepted else IncomingPending;
      assert w2.handlers == map[h := Handler(y, x, InviteWait, h), h + 1 := Handler(x, y, PeerInviteStore(status), h)];
      InviteFromPeerStore(w, w2, x, y, h, good);
    }
    BothEnd(w1, h, h + 1, good);
  }

  lemma InviteFromSend(w: World, w1: World, x: Node, y: Node, h: nat, good: World -> bool)
    requires x != y && Alone(w, w1, y, x, h, InviteSend) && w1.next == h + 1 && h !in w1.replies
    requires h == w.next && MayInvite(w, x, y)
    requires forall w' :: InviteDone(w, w', x, y) ==> good(w')
    ensures Ends(w1, h, good)
  {
    var w2 := RunHandler(w1, h, false);
    assert w2.handlers == map[h := Handler(y, x, InviteWait, h), h + 1 := Handler(x, y, PeerInviteRead, h)];
    InviteFromPeer(w, w2, x, y, h, good);
    AloneEnds(w1, h, good);
  }

  /** In every world at rest, whatever the two rows are: y's undisturbed invite of x is possible, and this is
      all it changes and what it answers. */
  lemma InviteOutcome(w: World, x: Node, y: Node)
    requires AtRest(w) && x != y
    ensures CallEnds(w, y, x, InviteRead, w' => InviteDone(w, w', x, y))
  {
    var good := w' => InviteDone(w, w', x, y);
    var h := w.next;
    Called(w, y, x, InviteRead);
    var w1 := Step(w, Call(y, x, InviteRead));
    var w2 := RunHandler(w1, h, false);
    if MayInvite(w, x, y) {
      assert w2.handlers == map[h := Handler(y, x, InviteSend, h)];
      InviteFromSend(w, w2, x, y, h, good);
    } else {
      NotMayInvite(w, x, y);
      assert w2.handlers == map[];
      EndsNow(w2, h, good);
    }
    AloneEnds(w1, h, good);
  }

  lemma NotMayInvite(w: World, x: Node, y: Node)
    requires !MayInvite(w, x, y)
    ensures Thread(w, y, x) == Some(Accepted) || Thread(w, y, x) == Some(IncomingPending)
  {
    var t := Thread(w, y, x);
    assert t.Some? && (t.value.Accepted? || t.value.IncomingPending?);
  }

  // ---------------------------------------------------------------- a stale write

  /** A message from a renamed peer stores the thread again as accepted, whatever became of it since it was read: a
      deletion in between is undone, and the message is logged. */
  lemma RefreshRevives(w: World, x: Node, y: Node, h: nat, kind: Kind)
    requires h in w.handlers && w.handlers[h].owner == x && w.handlers[h].peer == y && w.handlers[h].pc == PeerMailRefresh(kind)
    ensures var acts := [Delete(x, y)] + [Run(h, false), Run(h, false)];
            && After(w, acts).Some?
            && var w' := After(w, acts).value;
               && w'.threads == w.threads[(x, y) := Accepted] && w'.logged == w.logged + {(x, y, kind)}
  {
    var w1 := Step(w, Delete(x, y));
    var w2 := Step(w1, Run(h, false));
    assert w2.handlers[h].pc == PeerMailAppend(kind);
    assert w2.threads == w.threads[(x, y) := Accepted];
    Twice(w1, Run(h, false), Run(h, false));
    AfterFirst(w, Delete(x, y), [Run(h, false), Run(h, false)]);
  }

  // ---------------------------------------------------------------- a peer that fails

  /** When the posted handler dies, an invite, accept, message or share fails and changes nothing; a reject goes
      on and still removes the own row. */
  lemma FailedPeer(w: World, x: Node, y: Node, h: nat, wait: Pc, remote: Pc)
    requires x != y && IsPeer(remote) && IsWait(wait)
    requires w.handlers == map[h := Handler(y, x, wait, h), h + 1 := Handler(x, y, remote, h)]
    ensures !wait.RejectWait? ==>
              var acts := [Abort(h + 1), Run(h, false)];
              && After(w, acts).Some?
              && var w' := After(w, acts).value;
                 && w'.handlers == map[] && w'.threads == w.threads && w'.logged == w.logged
                 && h in w'.replies && !w'.replies[h]
    ensures wait.RejectWait? ==>
              var acts := [Abort(h + 1)] + [Run(h, false), Run(h, false)];
              && After(w, acts).Some?
              && var w' := After(w, acts).value;
                 && w'.handlers == map[] && w'.threads == w.threads - {(y, x)} && w'.logged == w.logged
                 && h in w'.replies && w'.replies[h]
  {
    var w1 := Step(w, Abort(h + 1));
    assert w1.handlers == map[h := Handler(y, x, wait, h)] && h in w1.replies && !w1.replies[h];
    var w2 := Step(w1, Run(h, false));
    if wait.RejectWait? {
      assert w2.handlers == map[h := Handler(y, x, RejectDelete, h)];
      assert Step(w2, Run(h, false)).handlers == map[];
      Twice(w1, Run(h, false), Run(h, false));
      AfterFirst(w, Abort(h + 1), [Run(h, false), Run(h, false)]);
    } else {
      assert w2.handlers == map[];
      Twice(w, Abort(h + 1), Run(h, false));
    }
  }

  // ---------------------------------------------------------------- a whole handshake

  /** A call that ends well can be made, and leaves a world at rest. */
  lemma CallRuns(w: World, y: Node, x: Node, pc: Pc, good: World -> bool) returns (acts: seq<Action>)
    requires AtRest(w) && CallEnds(w, y, x, pc, good)
    ensures After(w, acts).Some? && AtRest(After(w, acts).value) && good(After(w, acts).value)
  {
    var rest :| Undisturbed(Step(w, Call(y, x, pc)), rest, w.next);
    AfterFirst(w, Call(y, x, pc), rest);
    acts := [Call(y, x, pc)] + rest;
    AlwaysNumbered(w, acts);
  }

  /** Between two nodes without a row: an invite, its acceptance and a message, each undisturbed, open the
      thread on both sides and deliver the message. */
  lemma HandshakeDelivers(w: World, x: Node, y: Node, kind: Kind) returns (acts: seq<Action>)
    requires AtRest(w) && x != y && Thread(w, x, y) == None && Thread(w, y, x) == None
    ensures After(w, acts).Some?
    ensures var w' := After(w, acts).value;
            && AtRest(w') && Thread(w', x, y) == Some(Accepted) && Thread(w', y, x) == Some(Accepted)
            && w'.logged == w.logged + {(y, x, kind)}
  {
    InviteOutcome(w, y, x);
    var invite := CallRuns(w, x, y, InviteRead, w' => InviteDone(w, w', y, x));
    var w1 := After(w, invite).value;
    AcceptOutcome(w1, x, y);
    var accept := CallRuns(w1, y, x, AcceptRead, w' => AcceptDone(w1, w', x, y));
    var w2 := After(w1, accept).value;
    MailOutcome(w2, y, x, kind);
    var mail := CallRuns(w2, x, y, Pc.MailRead(kind), w' => MailDone(w2, w', y, x, kind));
    AfterConcat(w1, accept, mail);
    AfterConcat(w, invite, accept + mail);
    acts := invite + (accept + mail);
  }
}
