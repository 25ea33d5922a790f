/** The invite handshake and the consent gate of chats, shares and key shares
    (backend/api/routes.py:1157-1412, 1426-1484, 1725-1766, 1944-1983) as steps of many nodes.

    Every database access and every HTTP call of a handler is an await, so each is a step of its own
    and any other handler of any node may run in between: a handler acts on what it read before. */
module Consent {
  import opened Seqs
  import opened ChatDb

  type Node = nat

  /** What an accepted thread lets a peer put into our log. */
  datatype Kind = Chat | Share | KeyShare

  /** Where a handler stands. The first four groups are endpoints a user calls on the owner's node;
      the Peer states are endpoints another node calls on it. */
  datatype Pc =
    | InviteRead | InviteSend | InviteWait | InviteStore
    | AcceptRead | AcceptSend | AcceptWait | AcceptStore
    | RejectRead | RejectSend | RejectWait | RejectDelete
    | MailRead(kind: Kind) | MailSend(kind: Kind) | MailWait(kind: Kind)
    | PeerInviteRead | PeerInviteStore(status: Status)
    | PeerAcceptRead | PeerAcceptStore
    | PeerRejectDelete
    | PeerMailRead(kind: Kind) | PeerMailRefresh(kind: Kind) | PeerMailAppend(kind: Kind)

  /** A handler on `owner` about `peer`; a Peer handler answers the waiting handler `client`. */
  datatype Handler = Handler(owner: Node, peer: Node, pc: Pc, client: nat)

  /** `replies` are the answers to calls, by the number of the handler that made them; `invited`,
      `accepted` and `logged` record what has ever happened; the rest is live state. */
  datatype World = World(
    threads: map<(Node, Node), Status>,
    handlers: map<nat, Handler>,
    replies: map<nat, bool>,
    next: nat,
    invited: set<(Node, Node)>,
    accepted: set<(Node, Node)>,
    logged: set<(Node, Node, Kind)>)

  /** Call: a user calls an endpoint. Delete: a user deletes a thread. Run: a handler runs to its next
      await (`renamed`: the sender's name differs from the stored one). Abort: a handler dies of an
      error, a timeout or a crash. Unreachable: a rejection cannot notify the peer and goes on. */
  datatype Action =
    | Call(owner: Node, peer: Node, pc: Pc)
    | Delete(owner: Node, peer: Node)
    | Run(h: nat, renamed: bool)
    | Abort(h: nat)
    | Unreachable(h: nat)

  const Start := World(map[], map[], map[], 0, {}, {}, {})

  // ---------------------------------------------------------------- steps

  function Thread(w: World, x: Node, y: Node): Option<Status> {
    if (x, y) in w.threads then Some(w.threads[(x, y)]) else None
  }

  function Upsert(w: World, x: Node, y: Node, status: Status): World {
    w.(threads := w.threads[(x, y) := MergedStatus(Thread(w, x, y), status)])
  }

  function Remove(w: World, x: Node, y: Node): World {
    w.(threads := w.threads - {(x, y)})
  }

  function Goto(w: World, h: nat, pc: Pc): World
    requires h in w.handlers
  {
    w.(handlers := w.handlers[h := w.handlers[h].(pc := pc)])
  }

  /** The handler ends and its HTTP status reaches its client: the waiting handler of the other node, or
      the user, whose call has the number of its own handler. */
  function Finish(w: World, h: nat, ok: bool): World
    requires h in w.handlers
  {
    w.(handlers := w.handlers - {h},
       replies := w.replies[w.handlers[h].client := ok])
  }

  /** The POST of handler h: a handler appears on the peer, and h waits for its answer. */
  function Post(w: World, h: nat, remote: Pc, wait: Pc): World
    requires h in w.handlers
  {
    var me := w.handlers[h];
    w.(handlers := w.handlers[h := me.(pc := wait)][w.next := Handler(me.peer, me.owner, remote, h)],
       next := w.next + 1)
  }

  predicate IsPeer(pc: Pc) {
    || pc.PeerInviteRead? || pc.PeerInviteStore? || pc.PeerAcceptRead? || pc.PeerAcceptStore?
    || pc.PeerRejectDelete? || pc.PeerMailRead? || pc.PeerMailRefresh? || pc.PeerMailAppend?
  }

  predicate IsWait(pc: Pc) {
    pc.InviteWait? || pc.AcceptWait? || pc.RejectWait? || pc.MailWait?
  }

  predicate IsEntry(pc: Pc) {
    pc.InviteRead? || pc.AcceptRead? || pc.RejectRead? || pc.MailRead?
  }

  predicate Enabled(w: World, a: Action) {
    match a
    case Call(x, y, pc) => x != y && IsEntry(pc)
    case Delete(_, _) => true
    case Run(h, _) => h in w.handlers && (IsWait(w.handlers[h].pc) ==> h in w.replies)
    case Abort(h) => h in w.handlers
    case Unreachable(h) => h in w.handlers && (w.handlers[h].pc.RejectSend? || w.handlers[h].pc.RejectWait?)
  }

  /** One uninterrupted stretch of handler h. */
  function RunHandler(w: World, h: nat, renamed: bool): World
    requires Enabled(w, Run(h, renamed))
  {
    var me := w.handlers[h];
    var x, y := me.owner, me.peer;
    match me.pc
    case InviteRead =>
      if Thread(w, x, y) == Some(Accepted) then Finish(w, h, true)
      else if Thread(w, x, y) == Some(IncomingPending) then Finish(w, h, false)
      else Goto(w, h, InviteSend)
    case InviteSend => Post(w.(invited := w.invited + {(x, y)}), h, PeerInviteRead, InviteWait)
    case InviteWait => if w.replies[h] then Goto(w, h, InviteStore) else Finish(w, h, false)
    case InviteStore => Finish(Upsert(w, x, y, OutgoingPending), h, true)
    case AcceptRead =>
      if Thread(w, x, y) == Some(IncomingPending) then Goto(w, h, AcceptSend) else Finish(w, h, false)
    case AcceptSend => Post(w.(accepted := w.accepted + {(x, y)}), h, PeerAcceptRead, AcceptWait)
    case AcceptWait => if w.replies[h] then Goto(w, h, AcceptStore) else Finish(w, h, false)
    case AcceptStore => Finish(Upsert(w, x, y, Accepted), h, true)
    case RejectRead =>
      if Thread(w, x, y) == Some(IncomingPending) then Goto(w, h, RejectSend) else Finish(w, h, false)
    case RejectSend => Post(w, h, PeerRejectDelete, RejectWait)
    case RejectWait => Goto(w, h, RejectDelete)
    case RejectDelete => Finish(Remove(w, x, y), h, true)
    case MailRead(kind) =>
      if Thread(w, x, y) == Some(Accepted) then Goto(w, h, MailSend(kind)) else Finish(w, h, false)
    case MailSend(kind) => Post(w, h, PeerMailRead(kind), MailWait(kind))
    case MailWait(kind) => Finish(w, h, w.replies[h])
    case PeerInviteRead =>
      if Thread(w, x, y) == Some(Accepted) then Finish(w, h, true)
      else if Thread(w, x, y) == Some(OutgoingPending) then Goto(w, h, PeerInviteStore(Accepted))
      else Goto(w, h, PeerInviteStore(IncomingPending))
    case PeerInviteStore(status) => Finish(Upsert(w, x, y, status), h, true)
    case PeerAcceptRead => Goto(w, h, PeerAcceptStore)
    case PeerAcceptStore => Finish(Upsert(w, x, y, Accepted), h, true)
    case PeerRejectDelete => Finish(Remove(w, x, y), h, true)
    case PeerMailRead(kind) =>
      if Thread(w, x, y) != Some(Accepted) then Finish(w, h, false)
      else if kind == Chat && renamed then Goto(w, h, PeerMailRefresh(kind))
      else Goto(w, h, PeerMailAppend(kind))
    case PeerMailRefresh(kind) => Goto(Upsert(w, x, y, Accepted), h, PeerMailAppend(kind))
    case PeerMailAppend(kind) => Finish(w.(logged := w.logged + {(x, y, kind)}), h, true)
  }

  function Step(w: World, a: Action): World
    requires Enabled(w, a)
  {
    match a
    case Call(x, y, pc) => w.(handlers := w.handlers[w.next := Handler(x, y, pc, w.next)], next := w.next + 1)
    case Delete(x, y) => Remove(w, x, y)
    case Run(h, renamed) => RunHandler(w, h, renamed)
    case Abort(h) => Finish(w, h, false)
    case Unreachable(h) => Goto(w, h, RejectDelete)
  }

  /** The world after a run from w, or None when some action was not enabled. */
  function After(w: World, acts: seq<Action>): Option<World>
    decreases |acts|
  {
    if |acts| == 0 then Some(w)
    else if Enabled(w, acts[0]) then After(Step(w, acts[0]), acts[1..])
    else None
  }

  // ---------------------------------------------------------------- consent

  predicate Invited(w: World, x: Node, y: Node) {
    (x, y) in w.invited
  }

  /** x has called invite or accept towards y and the call went out. */
  predicate Consented(w: World, x: Node, y: Node) {
    (x, y) in w.invited || (x, y) in w.accepted
  }

  predicate Mutual(w: World, x: Node, y: Node) {
    Consented(w, x, y) && Consented(w, y, x)
  }

  /** What a stored status says about the past. */
  predicate StatusJustified(w: World, x: Node, y: Node, status: Status) {
    match status
    case OutgoingPending => Invited(w, x, y)
    case IncomingPending => Invited(w, y, x)
    case Accepted => Mutual(w, x, y)
  }

  /** What the point a handler has reached says about the past, however stale its read is. */
  predicate HandlerJustified(w: World, me: Handler) {
    var x, y := me.owner, me.peer;
    match me.pc
    case InviteWait => Invited(w, x, y)
    case InviteStore => Invited(w, x, y)
    case AcceptSend => Invited(w, y, x)
    case AcceptWait => Mutual(w, x, y)
    case AcceptStore => Mutual(w, x, y)
    case MailSend(_) => Mutual(w, x, y)
    case PeerInviteRead => Invited(w, y, x)
    case PeerInviteStore(status) => StatusJustified(w, x, y, status) && Invited(w, y, x)
    case PeerAcceptRead => Mutual(w, x, y)
    case PeerAcceptStore => Mutual(w, x, y)
    case PeerMailRead(_) => Mutual(w, x, y)
    case PeerMailRefresh(_) => Mutual(w, x, y)
    case PeerMailAppend(_) => Mutual(w, x, y)
    case _ => true
  }

  ghost predicate Inv(w: World) {
    && (forall x, y :: (x, y) in w.threads ==> StatusJustified(w, x, y, w.threads[(x, y)]))
    && (forall h :: h in w.handlers ==> HandlerJustified(w, w.handlers[h]))
    && (forall x, y, kind :: (x, y, kind) in w.logged ==> Mutual(w, x, y))
  }

  predicate HistoryGrows(w: World, w': World) {
    w.invited <= w'.invited && w.accepted <= w'.accepted
  }

  lemma JustifiedKept(w: World, w': World, me: Handler)
    requires HistoryGrows(w, w') && HandlerJustified(w, me)
    ensures HandlerJustified(w', me)
  {
  }

  lemma StepHistoryGrows(w: World, a: Action)
    requires Enabled(w, a)
    ensures HistoryGrows(w, Step(w, a))
  {
  }

  /** The handlers after one stretch of h: h itself moved on or ended, and at most one new one. */
  lemma HandlersAfter(w: World, a: Action, k: nat)
    requires Inv(w) && Enabled(w, a) && k in Step(w, a).handlers
    ensures HandlerJustified(Step(w, a), Step(w, a).handlers[k])
  {
    StepHistoryGrows(w, a);
    if k in w.handlers && w.handlers[k] == Step(w, a).handlers[k] {
      JustifiedKept(w, Step(w, a), w.handlers[k]);
    } else if a.Run? {
      assert HandlerJustified(w, w.handlers[a.h]);
      MovedHandler(w, a.h, a.renamed, k);
    }
  }

  lemma MovedHandlerPeer(w: World, h: nat, renamed: bool, k: nat)
    requires Enabled(w, Run(h, renamed)) && HandlerJustified(w, w.handlers[h])
    requires (w.handlers[h].owner, w.handlers[h].peer) in w.threads ==>
               StatusJustified(w, w.handlers[h].owner, w.handlers[h].peer, w.threads[(w.handlers[h].owner, w.handlers[h].peer)])
    requires k in RunHandler(w, h, renamed).handlers
    requires k in w.handlers ==> RunHandler(w, h, renamed).handlers[k] != w.handlers[k]
    requires IsPeer(w.handlers[h].pc)
    ensures HandlerJustified(RunHandler(w, h, renamed), RunHandler(w, h, renamed).handlers[k])
  {
  }

  predicate IsSend(pc: Pc) {
    pc.InviteSend? || pc.AcceptSend? || pc.RejectSend? || pc.MailSend?
  }

  lemma MovedHandlerSend(w: World, h: nat, renamed: bool, k: nat)
    requires Enabled(w, Run(h, renamed)) && HandlerJustified(w, w.handlers[h])
    requires (w.handlers[h].owner, w.handlers[h].peer) in w.threads ==>
               StatusJustified(w, w.handlers[h].owner, w.handlers[h].peer, w.threads[(w.handlers[h].owner, w.handlers[h].peer)])
    requires k in RunHandler(w, h, renamed).handlers
    requires k in w.handlers ==> RunHandler(w, h, renamed).handlers[k] != w.handlers[k]
    requires IsSend(w.handlers[h].pc)
    ensures HandlerJustified(RunHandler(w, h, renamed), RunHandler(w, h, renamed).handlers[k])
  {
  }

  lemma MovedHandlerOwn(w: World, h: nat, renamed: bool, k: nat)
    requires Enabled(w, Run(h, renamed)) && HandlerJustified(w, w.handlers[h])
    requires (w.handlers[h].owner, w.handlers[h].peer) in w.threads ==>
               StatusJustified(w, w.handlers[h].owner, w.handlers[h].peer, w.threads[(w.handlers[h].owner, w.handlers[h].peer)])
    requires k in RunHandler(w, h, renamed).handlers
    requires k in w.handlers ==> RunHandler(w, h, renamed).handlers[k] != w.handlers[k]
    requires !IsPeer(w.handlers[h].pc) && !IsSend(w.handlers[h].pc)
    ensures HandlerJustified(RunHandler(w, h, renamed), RunHandler(w, h, renamed).handlers[k])
  {
  }

  lemma MovedHandler(w: World, h: nat, renamed: bool, k: nat)
    requires Enabled(w, Run(h, renamed)) && HandlerJustified(w, w.handlers[h])
    requires (w.handlers[h].owner, w.handlers[h].peer) in w.threads ==>
               StatusJustified(w, w.handlers[h].owner, w.handlers[h].peer, w.threads[(w.handlers[h].owner, w.handlers[h].peer)])
    requires k in RunHandler(w, h, renamed).handlers
    requires k in w.handlers ==> RunHandler(w, h, renamed).handlers[k] != w.handlers[k]
    ensures HandlerJustified(RunHandler(w, h, renamed), RunHandler(w, h, renamed).handlers[k])
  {
    if IsPeer(w.handlers[h].pc) {
      MovedHandlerPeer(w, h, renamed, k);
    } else if IsSend(w.handlers[h].pc) {
      MovedHandlerSend(w, h, renamed, k);
    } else {
      MovedHandlerOwn(w, h, renamed, k);
    }
  }

  lemma OwnThreadPeer(w: World, h: nat, renamed: bool)
    requires Enabled(w, Run(h, renamed)) && HandlerJustified(w, w.handlers[h])
    requires var me := w.handlers[h];
             (me.owner, me.peer) in w.threads ==> StatusJustified(w, me.owner, me.peer, w.threads[(me.owner, me.peer)])
    requires IsPeer(w.handlers[h].pc)
    ensures var me, w' := w.handlers[h], RunHandler(w, h, renamed);
            (me.owner, me.peer) in w'.threads ==> StatusJustified(w', me.owner, me.peer, w'.threads[(me.owner, me.peer)])
  {
  }

  lemma OwnThreadOwn(w: World, h: nat, renamed: bool)
    requires Enabled(w, Run(h, renamed)) && HandlerJustified(w, w.handlers[h])
    requires var me := w.handlers[h];
             (me.owner, me.peer) in w.threads ==> StatusJustified(w, me.owner, me.peer, w.threads[(me.owner, me.peer)])
    requires !IsPeer(w.handlers[h].pc)
    ensures var me, w' := w.handlers[h], RunHandler(w, h, renamed);
            (me.owner, me.peer) in w'.threads ==> StatusJustified(w', me.owner, me.peer, w'.threads[(me.owner, me.peer)])
  {
  }

  lemma OwnThread(w: World, h: nat, renamed: bool)
    requires Enabled(w, Run(h, renamed)) && HandlerJustified(w, w.handlers[h])
    requires var me := w.handlers[h];
             (me.owner, me.peer) in w.threads ==> StatusJustified(w, me.owner, me.peer, w.threads[(me.owner, me.peer)])
    ensures var me, w' := w.handlers[h], RunHandler(w, h, renamed);
            (me.owner, me.peer) in w'.threads ==> StatusJustified(w', me.owner, me.peer, w'.threads[(me.owner, me.peer)])
  {
    if IsPeer(w.handlers[h].pc) {
      OwnThreadPeer(w, h, renamed);
    } else {
      OwnThreadOwn(w, h, renamed);
    }
  }

  lemma OtherThread(w: World, h: nat, renamed: bool, x: Node, y: Node)
    requires Enabled(w, Run(h, renamed)) && (w.handlers[h].owner, w.handlers[h].peer) != (x, y)
    ensures Thread(RunHandler(w, h, renamed), x, y) == Thread(w, x, y)
  {
  }

  lemma ThreadsAfter(w: World, a: Action, x: Node, y: Node)
    requires Inv(w) && Enabled(w, a) && (x, y) in Step(w, a).threads
    ensures StatusJustified(Step(w, a), x, y, Step(w, a).threads[(x, y)])
  {
    StepHistoryGrows(w, a);
    if a.Run? {
      if (w.handlers[a.h].owner, w.handlers[a.h].peer) == (x, y) {
        OwnThread(w, a.h, a.renamed);
      } else {
        OtherThread(w, a.h, a.renamed, x, y);
        assert Thread(w, x, y) == Some(w.threads[(x, y)]);
      }
    }
  }

  lemma OwnLogged(w: World, h: nat, renamed: bool, x: Node, y: Node, kind: Kind)
    requires Enabled(w, Run(h, renamed)) && HandlerJustified(w, w.handlers[h])
    requires (x, y, kind) in RunHandler(w, h, renamed).logged
    ensures (x, y, kind) in w.logged || Mutual(w, x, y)
  {
  }

  lemma LoggedAfter(w: World, a: Action, x: Node, y: Node, kind: Kind)
    requires Inv(w) && Enabled(w, a) && (x, y, kind) in Step(w, a).logged
    ensures Mutual(Step(w, a), x, y)
  {
    StepHistoryGrows(w, a);
    if a.Run? {
      OwnLogged(w, a.h, a.renamed, x, y, kind);
    }
  }

  lemma StepInv(w: World, a: Action)
    requires Inv(w) && Enabled(w, a)
    ensures Inv(Step(w, a))
  {
    var w' := Step(w, a);
    forall x, y | (x, y) in w'.threads ensures StatusJustified(w', x, y, w'.threads[(x, y)]) {
      ThreadsAfter(w, a, x, y);
    }
    forall h | h in w'.handlers ensures HandlerJustified(w', w'.handlers[h]) {
      HandlersAfter(w, a, h);
    }
    forall x, y, kind | (x, y, kind) in w'.logged ensures Mutual(w', x, y) {
      LoggedAfter(w, a, x, y, kind);
    }
  }

  lemma {:induction false} RunInv(w: World, acts: seq<Action>)
    requires Inv(w) && After(w, acts).Some?
    ensures Inv(After(w, acts).value)
    decreases |acts|
  {
    if |acts| > 0 {
      StepInv(w, acts[0]);
      RunInv(Step(w, acts[0]), acts[1..]);
    }
  }

  /** In every interleaving: if x's thread with y is accepted, or x ever logged a message, a share or
      a key share from y, then each of the two has invited or accepted the other. */
  lemma ConsentIsMutual(acts: seq<Action>, x: Node, y: Node)
    requires After(Start, acts).Some?
    ensures var w := After(Start, acts).value;
            (Thread(w, x, y) == Some(Accepted) || exists kind :: (x, y, kind) in w.logged)
              ==> Mutual(w, x, y)
  {
    RunInv(Start, acts);
  }

  // ---------------------------------------------------------------- accepted is final

  /** The stretches that delete x's thread with y. */
  predicate DeletesThread(w: World, a: Action, x: Node, y: Node) {
    || a == Delete(x, y)
    || (a.Run? && a.h in w.handlers && w.handlers[a.h].owner == x && w.handlers[a.h].peer == y
        && (w.handlers[a.h].pc.RejectDelete? || w.handlers[a.h].pc.PeerRejectDelete?))
  }

  /** No stale write regresses an accepted thread: it stays accepted or its row is deleted. */
  lemma AcceptedLeftOnlyByDeletion(w: World, a: Action, x: Node, y: Node)
    requires Enabled(w, a) && Thread(w, x, y) == Some(Accepted)
    ensures Thread(Step(w, a), x, y) == if DeletesThread(w, a, x, y) then None else Some(Accepted)
  {
    if a.Run? {
      var me := w.handlers[a.h];
      if (me.owner, me.peer) != (x, y) {
        OtherThread(w, a.h, a.renamed, x, y);
      } else {
        OwnAccepted(w, a.h, a.renamed);
      }
    }
  }

  lemma OwnAccepted(w: World, h: nat, renamed: bool)
    requires Enabled(w, Run(h, renamed)) && Thread(w, w.handlers[h].owner, w.handlers[h].peer) == Some(Accepted)
    ensures var me := w.handlers[h];
            Thread(RunHandler(w, h, renamed), me.owner, me.peer)
              == if me.pc.RejectDelete? || me.pc.PeerRejectDelete? then None else Some(Accepted)
  {
  }

  // ---------------------------------------------------------------- the two sides may disagree

  /** The handlers that can neither change x's accepted thread with y nor y's pending one with x. */
  predicate Harmless(me: Handler, x: Node, y: Node) {
    if (me.owner, me.peer) == (x, y) then
      me.pc.InviteRead? || me.pc.AcceptRead? || me.pc.RejectRead? || me.pc.MailRead? || me.pc.MailSend? || me.pc.MailWait?
      || me.pc.PeerInviteRead? || me.pc.PeerMailRead? || me.pc.PeerMailRefresh? || me.pc.PeerMailAppend?
    else if (me.owner, me.peer) == (y, x) then
      me.pc.InviteRead? || me.pc.InviteSend? || me.pc.InviteWait? || me.pc.InviteStore?
      || me.pc.AcceptRead? || me.pc.RejectRead? || me.pc.MailRead? || me.pc.PeerMailRead?
    else true
  }

  /** x holds the thread as accepted, y holds it as an unanswered invite. */
  ghost predicate Stuck(w: World, x: Node, y: Node) {
    && x != y
    && Thread(w, x, y) == Some(Accepted) && Thread(w, y, x) == Some(OutgoingPending)
    && (forall h :: h in w.handlers ==> Harmless(w.handlers[h], x, y))
  }

  lemma StuckHandlers(w: World, a: Action, x: Node, y: Node, k: nat)
    requires Stuck(w, x, y) && Enabled(w, a) && k in Step(w, a).handlers
    ensures Harmless(Step(w, a).handlers[k], x, y)
  {
    if a.Run? {
      assert Harmless(w.handlers[a.h], x, y);
      if k in w.handlers {
        assert Harmless(w.handlers[k], x, y);
      }
      StuckMoved(w, a.h, a.renamed, x, y, k);
    } else if k in w.handlers {
      assert Harmless(w.handlers[k], x, y);
    }
  }

  lemma StuckMovedPeer(w: World, h: nat, renamed: bool, x: Node, y: Node, k: nat)
    requires x != y && Thread(w, x, y) == Some(Accepted) && Thread(w, y, x) == Some(OutgoingPending)
    requires Enabled(w, Run(h, renamed)) && Harmless(w.handlers[h], x, y)
    requires k in RunHandler(w, h, renamed).handlers && (k in w.handlers ==> Harmless(w.handlers[k], x, y))
    requires IsPeer(w.handlers[h].pc)
    ensures Harmless(RunHandler(w, h, renamed).handlers[k], x, y)
  {
  }

  lemma StuckMovedOwn(w: World, h: nat, renamed: bool, x: Node, y: Node, k: nat)
    requires x != y && Thread(w, x, y) == Some(Accepted) && Thread(w, y, x) == Some(OutgoingPending)
    requires Enabled(w, Run(h, renamed)) && Harmless(w.handlers[h], x, y)
    requires k in RunHandler(w, h, renamed).handlers && (k in w.handlers ==> Harmless(w.handlers[k], x, y))
    requires !IsPeer(w.handlers[h].pc)
    ensures Harmless(RunHandler(w, h, renamed).handlers[k], x, y)
  {
  }

  lemma StuckMoved(w: World, h: nat, renamed: bool, x: Node, y: Node, k: nat)
    requires x != y && Thread(w, x, y) == Some(Accepted) && Thread(w, y, x) == Some(OutgoingPending)
    requires Enabled(w, Run(h, renamed)) && Harmless(w.handlers[h], x, y)
    requires k in RunHandler(w, h, renamed).handlers && (k in w.handlers ==> Harmless(w.handlers[k], x, y))
    ensures Harmless(RunHandler(w, h, renamed).handlers[k], x, y)
  {
    if IsPeer(w.handlers[h].pc) {
      StuckMovedPeer(w, h, renamed, x, y, k);
    } else {
      StuckMovedOwn(w, h, renamed, x, y, k);
    }
  }

  lemma StuckStep(w: World, a: Action, x: Node, y: Node)
    requires Stuck(w, x, y) && Enabled(w, a) && a != Delete(x, y) && a != Delete(y, x)
    ensures Stuck(Step(w, a), x, y)
  {
    forall k | k in Step(w, a).handlers ensures Harmless(Step(w, a).handlers[k], x, y) {
      StuckHandlers(w, a, x, y, k);
    }
    if a.Run? {
      assert Harmless(w.handlers[a.h], x, y);
      StuckThreads(w, a.h, a.renamed, x, y);
    }
  }

  lemma StuckThreads(w: World, h: nat, renamed: bool, x: Node, y: Node)
    requires x != y && Thread(w, x, y) == Some(Accepted) && Thread(w, y, x) == Some(OutgoingPending)
    requires Enabled(w, Run(h, renamed)) && Harmless(w.handlers[h], x, y)
    ensures Thread(RunHandler(w, h, renamed), x, y) == Some(Accepted)
    ensures Thread(RunHandler(w, h, renamed), y, x) == Some(OutgoingPending)
  {
  }

  lemma StuckLogs(w: World, a: Action, x: Node, y: Node, kind: Kind)
    requires Stuck(w, x, y) && Enabled(w, a)
    ensures (y, x, kind) in Step(w, a).logged ==> (y, x, kind) in w.logged
  {
    if a.Run? {
      assert Harmless(w.handlers[a.h], x, y);
    }
  }

  /** Once x is accepted and y pending with nothing risky under way, no further invites, accepts,
      rejections or messages ever bring the two sides together, and nothing x sends is logged by y:
      only deleting a thread ends it. */
  lemma {:induction false} DisagreementPersists(w: World, acts: seq<Action>, x: Node, y: Node)
    requires Stuck(w, x, y) && After(w, acts).Some?
    requires Delete(x, y) !in acts && Delete(y, x) !in acts
    ensures Stuck(After(w, acts).value, x, y)
    ensures forall kind :: (y, x, kind) in After(w, acts).value.logged ==> (y, x, kind) in w.logged
    decreases |acts|
  {
    if |acts| > 0 {
      StuckStep(w, acts[0], x, y);
      forall kind ensures (y, x, kind) in Step(w, acts[0]).logged ==> (y, x, kind) in w.logged {
        StuckLogs(w, acts[0], x, y, kind);
      }
      DisagreementPersists(Step(w, acts[0]), acts[1..], x, y);
    }
  }

  lemma AfterFirst(w: World, a: Action, rest: seq<Action>)
    requires Enabled(w, a)
    ensures After(w, [a] + rest) == After(Step(w, a), rest)
  {
    assert ([a] + rest)[1..] == rest;
  }

  // ---------------------------------------------------------------- an undisturbed invite

  /** Handler ids, clients and answered handlers are all older than the next id. */
  predicate Numbered(w: World) {
    && (forall h :: h in w.handlers ==> h < w.next && w.handlers[h].client < w.next)
    && (forall h :: h in w.replies ==> h < w.next)
  }

  lemma {:induction false} AlwaysNumbered(w: World, acts: seq<Action>)
    requires Numbered(w) && After(w, acts).Some?
    ensures Numbered(After(w, acts).value)
    decreases |acts|
  {
    if |acts| > 0 {
      StepNumbered(w, acts[0]);
      AlwaysNumbered(Step(w, acts[0]), acts[1..]);
    }
  }

  lemma PeerNumbered(w: World, h: nat, renamed: bool)
    requires Numbered(w) && Enabled(w, Run(h, renamed)) && IsPeer(w.handlers[h].pc)
    ensures Numbered(RunHandler(w, h, renamed))
  {
  }

  lemma OwnNumbered(w: World, h: nat, renamed: bool)
    requires Numbered(w) && Enabled(w, Run(h, renamed)) && !IsPeer(w.handlers[h].pc)
    ensures Numbered(RunHandler(w, h, renamed))
  {
  }

  lemma StepNumbered(w: World, a: Action)
    requires Numbered(w) && Enabled(w, a)
    ensures Numbered(Step(w, a))
  {
    if a.Run? {
      if IsPeer(w.handlers[a.h].pc) {
        PeerNumbered(w, a.h, a.renamed);
      } else {
        OwnNumbered(w, a.h, a.renamed);
      }
    }
  }

  /** From here on only handler h and the handler it posts run. */
  predicate OnlyRuns(acts: seq<Action>, h: nat) {
    forall i :: 0 <= i < |acts| ==> acts[i].Run? && (acts[i].h == h || acts[i].h == h + 1)
  }

  /** y's invite of x from its call to the end of its handler, with nothing else in between. */
  ghost predicate InviteOf(w: World, acts: seq<Action>, x: Node, y: Node) {
    && |acts| > 0 && acts[0] == Call(y, x, InviteRead) && OnlyRuns(acts[1..], w.next)
    && After(w, acts).Some? && After(w, acts).value.handlers == map[]
  }

  /** y still has an invite to send: no row, or only an unanswered invite of its own. */
  predicate MayInvite(w: World, x: Node, y: Node) {
    Thread(w, y, x) == None || Thread(w, y, x) == Some(OutgoingPending)
  }

  /** x takes y's invite for granted: it has accepted y, or has an invite to y out itself. */
  predicate TakesForGranted(w: World, x: Node, y: Node) {
    Thread(w, x, y) == Some(OutgoingPending) || Thread(w, x, y) == Some(Accepted)
  }

  /** What the two rows are in the end. */
  predicate Invite(w: World, w': World, x: Node, y: Node) {
    if MayInvite(w, x, y) then
      && Thread(w', x, y) == Some(if TakesForGranted(w, x, y) then Accepted else IncomingPending)
      && Thread(w', y, x) == Some(OutgoingPending)
    else Thread(w', x, y) == Thread(w, x, y) && Thread(w', y, x) == Thread(w, y, x)
  }

  predicate SameRows(w: World, w': World, x: Node, y: Node) {
    Thread(w', x, y) == Thread(w, x, y) && Thread(w', y, x) == Thread(w, y, x)
  }

  lemma Rest(w: World, acts: seq<Action>, h: nat)
    requires OnlyRuns(acts, h) && h in w.handlers && After(w, acts).Some? && After(w, acts).value.handlers == map[]
    ensures |acts| > 0 && OnlyRuns(acts[1..], h) && acts[0].Run? && (acts[0].h == h || acts[0].h == h + 1)
  {
    assert w.handlers != map[];
  }

  lemma NothingRuns(w: World, acts: seq<Action>, h: nat)
    requires w.handlers == map[] && OnlyRuns(acts, h) && After(w, acts).Some?
    ensures acts == []
  {
  }

  lemma FromStore(w: World, acts: seq<Action>, x: Node, y: Node, h: nat)
    requires x != y && w.handlers == map[h := Handler(y, x, InviteStore, h)] && MayInvite(w, x, y)
    requires OnlyRuns(acts, h) && After(w, acts).Some? && After(w, acts).value.handlers == map[]
    ensures Thread(After(w, acts).value, x, y) == Thread(w, x, y) && Thread(After(w, acts).value, y, x) == Some(OutgoingPending)
  {
    Rest(w, acts, h);
    var w1 := Step(w, acts[0]);
    assert w1.handlers == map[];
    NothingRuns(w1, acts[1..], h);
  }

  lemma FromWait(w: World, acts: seq<Action>, x: Node, y: Node, h: nat)
    requires x != y && w.handlers == map[h := Handler(y, x, InviteWait, h)] && h in w.replies && w.replies[h] && MayInvite(w, x, y)
    requires OnlyRuns(acts, h) && After(w, acts).Some? && After(w, acts).value.handlers == map[]
    ensures Thread(After(w, acts).value, x, y) == Thread(w, x, y) && Thread(After(w, acts).value, y, x) == Some(OutgoingPending)
  {
    Rest(w, acts, h);
    var w1 := Step(w, acts[0]);
    assert w1.handlers == map[h := Handler(y, x, InviteStore, h)];
    FromStore(w1, acts[1..], x, y, h);
  }

  lemma FromPeerStore(w: World, acts: seq<Action>, x: Node, y: Node, h: nat, status: Status)
    requires x != y && h !in w.replies && MayInvite(w, x, y) && Thread(w, x, y) != Some(Accepted)
    requires w.handlers == map[h := Handler(y, x, InviteWait, h), h + 1 := Handler(x, y, PeerInviteStore(status), h)]
    requires OnlyRuns(acts, h) && After(w, acts).Some? && After(w, acts).value.handlers == map[]
    ensures Thread(After(w, acts).value, x, y) == Some(status) && Thread(After(w, acts).value, y, x) == Some(OutgoingPending)
  {
    Rest(w, acts, h);
    var w1 := Step(w, acts[0]);
    assert w1.handlers == map[h := Handler(y, x, InviteWait, h)];
    FromWait(w1, acts[1..], x, y, h);
  }

  lemma FromPeerRead(w: World, acts: seq<Action>, x: Node, y: Node, h: nat)
    requires x != y && h !in w.replies && MayInvite(w, x, y)
    requires w.handlers == map[h := Handler(y, x, InviteWait, h), h + 1 := Handler(x, y, PeerInviteRead, h)]
    requires OnlyRuns(acts, h) && After(w, acts).Some? && After(w, acts).value.handlers == map[]
    ensures Invite(w, After(w, acts).value, x, y)
  {
    Rest(w, acts, h);
    var w1 := Step(w, acts[0]);
    if Thread(w, x, y) == Some(Accepted) {
      assert w1.handlers == map[h := Handler(y, x, InviteWait, h)];
      FromWait(w1, acts[1..], x, y, h);
    } else {
      var status := if Thread(w, x, y) == Some(OutgoingPending) then Accepted else IncomingPending;
      assert w1.handlers == map[h := Handler(y, x, InviteWait, h), h + 1 := Handler(x, y, PeerInviteStore(status), h)];
      FromPeerStore(w1, acts[1..], x, y, h, status);
    }
  }

  lemma FromSend(w: World, acts: seq<Action>, x: Node, y: Node, h: nat)
    requires x != y && h !in w.replies && w.next == h + 1 && MayInvite(w, x, y)
    requires w.handlers == map[h := Handler(y, x, InviteSend, h)]
    requires OnlyRuns(acts, h) && After(w, acts).Some? && After(w, acts).value.handlers == map[]
    ensures Invite(w, After(w, acts).value, x, y)
  {
    Rest(w, acts, h);
    var w1 := Step(w, acts[0]);
    assert w1.handlers == map[h := Handler(y, x, InviteWait, h), h + 1 := Handler(x, y, PeerInviteRead, h)];
    FromPeerRead(w1, acts[1..], x, y, h);
  }

  lemma FromRead(w: World, acts: seq<Action>, x: Node, y: Node, h: nat)
    requires x != y && h !in w.replies && w.next == h + 1
    requires w.handlers == map[h := Handler(y, x, InviteRead, h)]
    requires OnlyRuns(acts, h) && After(w, acts).Some? && After(w, acts).value.handlers == map[]
    ensures Invite(w, After(w, acts).value, x, y)
  {
    Rest(w, acts, h);
    var w1 := Step(w, acts[0]);
    if MayInvite(w, x, y) {
      assert w1.handlers == map[h := Handler(y, x, InviteSend, h)];
      FromSend(w1, acts[1..], x, y, h);
    } else {
      var t := Thread(w, y, x);
      assert t.Some? && t.value != OutgoingPending;
      assert t == Some(Accepted) || t == Some(IncomingPending) by {
        assert t.value.Accepted? || t.value.IncomingPending?;
      }
      assert w1.handlers == w.handlers - {h} == map[];
      NothingRuns(w1, acts[1..], h);
    }
  }

  /** An undisturbed invite from a world at rest, whatever the two rows are: what it makes of them. */
  lemma InviteResult(w: World, acts: seq<Action>, x: Node, y: Node)
    requires x != y && Numbered(w) && w.handlers == map[] && InviteOf(w, acts, x, y)
    ensures Invite(w, After(w, acts).value, x, y)
  {
    var w1 := Step(w, acts[0]);
    assert w1.handlers == map[w.next := Handler(y, x, InviteRead, w.next)];
    FromRead(w1, acts[1..], x, y, w.next);
  }

  /** In every world at rest that a run has reached: y's undisturbed invite of x leaves x accepted and y
      waiting, for good, if and only if y may invite (it has no row, or its own pending invite) and x takes it
      for granted (x has accepted y, or has its own invite out). y ignores what the answer says. */
  lemma CrossedInviteDisagrees(before: seq<Action>, acts: seq<Action>, x: Node, y: Node)
    requires x != y && After(Start, before).Some? && After(Start, before).value.handlers == map[]
    requires InviteOf(After(Start, before).value, acts, x, y)
    ensures var w := After(Start, before).value;
            Stuck(After(w, acts).value, x, y) <==> MayInvite(w, x, y) && TakesForGranted(w, x, y)
  {
    AlwaysNumbered(Start, before);
    InviteResult(After(Start, before).value, acts, x, y);
  }

  // ---------------------------------------------------------------- runs that lead there

  lemma After1(w: World, a: Action)
    requires Enabled(w, a)
    ensures After(w, [a]) == Some(Step(w, a))
  {
    assert [a][1..] == [];
  }

  lemma {:induction false} AfterConcat(w: World, a: seq<Action>, b: seq<Action>)
    requires After(w, a).Some?
    ensures After(w, a + b) == After(After(w, a).value, b)
    decreases |a|
  {
    if |a| == 0 {
      assert a + b == b;
    } else {
      assert a + b == [a[0]] + (a[1..] + b);
      AfterFirst(w, a[0], a[1..] + b);
      AfterConcat(Step(w, a[0]), a[1..], b);
    }
  }

  lemma Twice(w: World, a: Action, b: Action)
    requires Enabled(w, a) && Enabled(Step(w, a), b)
    ensures After(w, [a, b]) == Some(Step(Step(w, a), b))
  {
    After1(Step(w, a), b);
    AfterFirst(w, a, [b]);
    assert [a] + [b] == [a, b];
  }

  lemma ReadAndSend(w: World, x: Node, y: Node, h: nat)
    requires x != y && MayInvite(w, x, y) && w.next == h + 1 && w.handlers == map[h := Handler(y, x, InviteRead, h)]
    ensures var acts := [Run(h, false), Run(h, false)];
            && After(w, acts).Some?
            && var w' := After(w, acts).value;
               && w'.handlers == map[h := Handler(y, x, InviteWait, h), h + 1 := Handler(x, y, PeerInviteRead, h)]
               && w'.threads == w.threads && w'.replies == w.replies
  {
    var w1 := Step(w, Run(h, false));
    assert w1.handlers == map[h := Handler(y, x, InviteSend, h)];
    var w2 := Step(w1, Run(h, false));
    assert w2.handlers == map[h := Handler(y, x, InviteWait, h), h + 1 := Handler(x, y, PeerInviteRead, h)];
    Twice(w, Run(h, false), Run(h, false));
  }

  lemma ReadSent(w: World, x: Node, y: Node)
    requires x != y && w.handlers == map[] && MayInvite(w, x, y)
    ensures var acts, h := [Call(y, x, InviteRead), Run(w.next, false), Run(w.next, false)], w.next;
            && After(w, acts).Some?
            && var w' := After(w, acts).value;
               && w'.handlers == map[h := Handler(y, x, InviteWait, h), h + 1 := Handler(x, y, PeerInviteRead, h)]
               && w'.threads == w.threads && w'.replies == w.replies
  {
    var h := w.next;
    var call := Call(y, x, InviteRead);
    var w1 := Step(w, call);
    assert w1.handlers == map[h := Handler(y, x, InviteRead, h)];
    ReadAndSend(w1, x, y, h);
    AfterFirst(w, call, [Run(h, false), Run(h, false)]);
    assert [call] + [Run(h, false), Run(h, false)] == [call, Run(h, false), Run(h, false)];
  }

  function Answer(w: World, x: Node, y: Node, h: nat): seq<Action> {
    if Thread(w, x, y) == Some(Accepted) then [Run(h + 1, false)] else [Run(h + 1, false), Run(h + 1, false)]
  }

  lemma Answered(w: World, x: Node, y: Node, h: nat)
    requires x != y && w.handlers == map[h := Handler(y, x, InviteWait, h), h + 1 := Handler(x, y, PeerInviteRead, h)]
    ensures var acts := Answer(w, x, y, h);
            && After(w, acts).Some?
            && var w' := After(w, acts).value;
               w'.handlers == map[h := Handler(y, x, InviteWait, h)] && h in w'.replies && w'.replies[h]
  {
    var w1 := Step(w, Run(h + 1, false));
    if Thread(w, x, y) == Some(Accepted) {
      assert w1.handlers == map[h := Handler(y, x, InviteWait, h)];
      After1(w, Run(h + 1, false));
    } else {
      var status := if Thread(w, x, y) == Some(OutgoingPending) then Accepted else IncomingPending;
      assert w1.handlers == map[h := Handler(y, x, InviteWait, h), h + 1 := Handler(x, y, PeerInviteStore(status), h)];
      var w2 := Step(w1, Run(h + 1, false));
      assert w2.handlers == map[h := Handler(y, x, InviteWait, h)];
      Twice(w, Run(h + 1, false), Run(h + 1, false));
    }
  }

  lemma StoredInvite(w: World, x: Node, y: Node, h: nat)
    requires x != y && w.handlers == map[h := Handler(y, x, InviteWait, h)] && h in w.replies && w.replies[h]
    ensures After(w, [Run(h, false), Run(h, false)]).Some? && After(w, [Run(h, false), Run(h, false)]).value.handlers == map[]
  {
    var w1 := Step(w, Run(h, false));
    assert w1.handlers == map[h := Handler(y, x, InviteStore, h)];
    assert Step(w1, Run(h, false)).handlers == map[];
    Twice(w, Run(h, false), Run(h, false));
  }

  /** From every world at rest a node that may invite can do so undisturbed. */
  lemma InviteRuns(w: World, x: Node, y: Node) returns (acts: seq<Action>)
    requires x != y && w.handlers == map[] && MayInvite(w, x, y)
    ensures InviteOf(w, acts, x, y)
  {
    var h := w.next;
    var sent := [Call(y, x, InviteRead), Run(h, false), Run(h, false)];
    ReadSent(w, x, y);
    var w1 := After(w, sent).value;
    var answer := Answer(w1, x, y, h);
    Answered(w1, x, y, h);
    var w2 := After(w1, answer).value;
    var stored := [Run(h, false), Run(h, false)];
    StoredInvite(w2, x, y, h);
    AfterConcat(w1, answer, stored);
    AfterConcat(w, sent, answer + stored);
    acts := sent + (answer + stored);
  }

  lemma DeletedRow(w: World, x: Node, y: Node)
    requires w.handlers == map[] && x != y
    ensures After(w, [Delete(y, x)]).Some?
    ensures var w' := After(w, [Delete(y, x)]).value;
            w'.handlers == map[] && Thread(w', y, x) == None && Thread(w', x, y) == Thread(w, x, y)
  {
    After1(w, Delete(y, x));
  }

  /** An undisturbed invite by `from`, and then the invited node deletes its row. */
  lemma InvitedThenDeleted(before: seq<Action>, from: Node, to: Node) returns (acts: seq<Action>)
    requires from != to && After(Start, before).Some? && After(Start, before).value.handlers == map[]
    requires MayInvite(After(Start, before).value, to, from)
    ensures After(Start, acts).Some?
    ensures var w := After(Start, acts).value;
            w.handlers == map[] && Thread(w, from, to) == Some(OutgoingPending) && Thread(w, to, from) == None
  {
    var w := After(Start, before).value;
    AlwaysNumbered(Start, before);
    var invite := InviteRuns(w, to, from);
    InviteResult(w, invite, to, from);
    var w1 := After(w, invite).value;
    DeletedRow(w1, from, to);
    AfterConcat(w, invite, [Delete(to, from)]);
    AfterConcat(Start, before, invite + [Delete(to, from)]);
    acts := before + (invite + [Delete(to, from)]);
  }

  /** From the start: x invites y, y deletes the invite and then invites x. x is left accepted and y waiting. */
  lemma DisagreementReached(x: Node, y: Node) returns (acts: seq<Action>)
    requires x != y
    ensures After(Start, acts).Some? && After(Start, acts).value.handlers == map[] && Stuck(After(Start, acts).value, x, y)
  {
    assert After(Start, []) == Some(Start);
    var before := InvitedThenDeleted([], x, y);
    acts := InviteOnTop(before, x, y);
  }

  lemma InviteOnTop(before: seq<Action>, x: Node, y: Node) returns (acts: seq<Action>)
    requires x != y && After(Start, before).Some? && After(Start, before).value.handlers == map[]
    requires MayInvite(After(Start, before).value, x, y) && TakesForGranted(After(Start, before).value, x, y)
    ensures After(Start, acts).Some? && After(Start, acts).value.handlers == map[] && Stuck(After(Start, acts).value, x, y)
  {
    var w := After(Start, before).value;
    var invite := InviteRuns(w, x, y);
    CrossedInviteDisagrees(before, invite, x, y);
    AfterConcat(Start, before, invite);
    acts := before + invite;
  }

  /** The other way in, also from the start: x has accepted y, y's row is gone, and y invites x again. */
  lemma DisagreementReachedAgain(x: Node, y: Node) returns (before: seq<Action>, acts: seq<Action>)
    requires x != y
    ensures After(Start, before).Some? && Thread(After(Start, before).value, x, y) == Some(Accepted)
    ensures Thread(After(Start, before).value, y, x) == None
    ensures InviteOf(After(Start, before).value, acts, x, y) && Stuck(After(After(Start, before).value, acts).value, x, y)
  {
    var stuck := DisagreementReached(x, y);
    var w := After(Start, stuck).value;
    DeletedRow(w, x, y);
    AfterConcat(Start, stuck, [Delete(y, x)]);
    before := stuck + [Delete(y, x)];
    acts := InviteRuns(After(Start, before).value, x, y);
    CrossedInviteDisagrees(before, acts, x, y);
  }
}
