/** The swarm chat flood (backend/api/routes.py:854-937) over the connection tables of
    backend/network/connection.py, as steps of many nodes.

    A handler runs without interruption from one await to the next: remembering a message id is one
    step, showing it to the local clients is another, and each send of the re-broadcast is another.
    Copies on the wire are delivered in any order. */
module Gossip {
  import opened Seqs

  const MAX_SEEN: nat := 500

  type Node = nat
  type MsgId = nat

  /** links[u] are the peers u broadcasts to; (u, v) in read when v runs an inbound loop on that
      connection (only the accepting side of a connection does). */
  datatype Graph = Graph(nodes: set<Node>, links: map<Node, seq<Node>>, read: set<(Node, Node)>)

  ghost predicate ValidGraph(g: Graph) {
    && g.links.Keys == g.nodes
    && (forall u, i :: u in g.nodes && 0 <= i < |g.links[u]| ==> g.links[u][i] in g.nodes)
  }

  /** A handler past its duplicate check: about to show the message, or part way through the sends. */
  datatype Task =
    | Showing(node: Node, id: MsgId)
    | Sending(node: Node, id: MsgId, todo: seq<Node>)

  datatype State = State(
    seen: map<Node, set<MsgId>>,
    shown: seq<(Node, MsgId)>,
    wire: seq<(Node, MsgId)>,
    tasks: seq<Task>,
    origin: map<MsgId, Node>)

  datatype Action =
    | Originate(node: Node, id: MsgId, victim: MsgId)
    | Deliver(copy: nat, victim: MsgId)
    | Show(task: nat)
    | Send(task: nat)

  /** `seen.add(id)` and, above the limit, `seen.pop()` of an arbitrary element. */
  function Remember(seen: set<MsgId>, id: MsgId, victim: MsgId): (r: set<MsgId>)
    ensures |seen + {id}| <= MAX_SEEN ==> id in r && seen <= r
  {
    var grown := seen + {id};
    if |grown| > MAX_SEEN then grown - {victim} else grown
  }

  /** One node's cache of seen ids, shared by its WebSocket and TCP handlers. */
  class SeenIds {
    var ids: set<MsgId>

    constructor ()
      ensures ids == {}
    {
      ids := {};
    }

    /** The duplicate check of a handler: true when the message is new and must be shown and sent on. */
    method Admit(id: MsgId) returns (isNew: bool)
      modifies this
      ensures isNew == (id !in old(ids))
      ensures !isNew ==> ids == old(ids)
      ensures isNew ==> exists victim :: victim in old(ids) + {id} && ids == Remember(old(ids), id, victim)
    {
      if id in ids {
        return false;
      }
      ghost var was := ids;
      ids := ids + {id};
      assert id in was + {id};
      if |ids| > MAX_SEEN {
        var victim :| victim in ids;
        ids := ids - {victim};
        assert ids == Remember(was, id, victim);
      } else {
        assert ids == Remember(was, id, id);
      }
      return true;
    }
  }

  // ---------------------------------------------------------------- steps

  ghost predicate Enabled(g: Graph, s: State, a: Action)
    requires s.seen.Keys == g.nodes
  {
    match a
    case Originate(n, id, victim) =>
      n in g.nodes && id !in s.origin && victim in s.seen[n] + {id}
    case Deliver(i, victim) =>
      i < |s.wire| && s.wire[i].0 in g.nodes && victim in s.seen[s.wire[i].0] + {s.wire[i].1}
    case Show(t) => t < |s.tasks| && s.tasks[t].Showing? && s.tasks[t].node in g.nodes
    case Send(t) => t < |s.tasks| && s.tasks[t].Sending?
  }

  ghost function Step(g: Graph, s: State, a: Action): (s': State)
    requires ValidGraph(g) && s.seen.Keys == g.nodes && Enabled(g, s, a)
    ensures s'.seen.Keys == g.nodes
  {
    match a
    case Originate(n, id, victim) =>
      s.(seen := s.seen[n := Remember(s.seen[n], id, victim)],
         origin := s.origin[id := n],
         tasks := s.tasks + [Showing(n, id)])
    case Deliver(i, victim) =>
      var (n, id) := s.wire[i];
      var rest := RemoveAt(s.wire, i);
      if id in s.seen[n] then s.(wire := rest)
      else s.(wire := rest,
              seen := s.seen[n := Remember(s.seen[n], id, victim)],
              tasks := s.tasks + [Showing(n, id)])
    case Show(t) =>
      var task := s.tasks[t];
      s.(shown := s.shown + [(task.node, task.id)],
         tasks := s.tasks[t := Sending(task.node, task.id, g.links[task.node])])
    case Send(t) =>
      var task := s.tasks[t];
      if |task.todo| == 0 then s.(tasks := RemoveAt(s.tasks, t))
      else
        var v := task.todo[0];
        s.(tasks := s.tasks[t := task.(todo := task.todo[1..])],
           wire := if (task.node, v) in g.read then s.wire + [(v, task.id)] else s.wire)
  }

  ghost function Init(g: Graph): State {
    State(map n | n in g.nodes :: {}, [], [], [], map[])
  }

  /** The state after a run, or None when some action of it was not enabled. */
  ghost function After(g: Graph, acts: seq<Action>): (r: Option<State>)
    requires ValidGraph(g)
    ensures r.Some? ==> r.value.seen.Keys == g.nodes
  {
    if |acts| == 0 then Some(Init(g))
    else
      var last := |acts| - 1;
      match After(g, acts[..last])
      case None => None
      case Some(s) => if Enabled(g, s, acts[last]) then Some(Step(g, s, acts[last])) else None
  }

  ghost predicate Quiescent(s: State) {
    |s.wire| == 0 && |s.tasks| == 0
  }

  // ---------------------------------------------------------------- reachability

  ghost predicate Edge(g: Graph, u: Node, v: Node) {
    u in g.links && v in g.links[u] && (u, v) in g.read
  }

  ghost predicate IsPath(g: Graph, path: seq<Node>)
    requires ValidGraph(g)
  {
    |path| > 0 && path[0] in g.nodes && forall i :: 0 <= i < |path| - 1 ==> Edge(g, path[i], path[i + 1])
  }

  ghost predicate Reaches(g: Graph, u: Node, v: Node)
    requires ValidGraph(g)
  {
    exists path :: IsPath(g, path) && path[0] == u && path[|path| - 1] == v
  }

  lemma ReachesSelf(g: Graph, u: Node)
    requires ValidGraph(g) && u in g.nodes
    ensures Reaches(g, u, u)
  {
    assert IsPath(g, [u]);
  }

  lemma ReachesStep(g: Graph, u: Node, v: Node, w: Node)
    requires ValidGraph(g) && Reaches(g, u, v) && Edge(g, v, w)
    ensures Reaches(g, u, w)
  {
    var path :| IsPath(g, path) && path[0] == u && path[|path| - 1] == v;
    var longer := path + [w];
    assert forall i :: 0 <= i < |longer| - 1 ==> Edge(g, longer[i], longer[i + 1]);
    assert IsPath(g, longer) && longer[0] == u && longer[|longer| - 1] == w;
  }

  // ---------------------------------------------------------------- invariants

  function B(b: bool): nat {
    if b then 1 else 0
  }

  ghost predicate WellFormed(g: Graph, s: State)
    requires ValidGraph(g)
  {
    && s.seen.Keys == g.nodes
    && (forall i :: 0 <= i < |s.wire| ==> s.wire[i].0 in g.nodes)
    && (forall t :: 0 <= t < |s.tasks| ==> TaskFits(g, s.tasks[t]))
  }

  /** The peers a sending handler has still to serve are a suffix of its node's links. */
  ghost predicate TaskFits(g: Graph, task: Task)
    requires ValidGraph(g)
  {
    && task.node in g.nodes
    && (task.Sending? ==>
          && |task.todo| <= |g.links[task.node]|
          && task.todo == g.links[task.node][|g.links[task.node]| - |task.todo|..])
  }

  ghost predicate SeenOriginated(s: State) {
    forall n :: n in s.seen ==> s.seen[n] <= s.origin.Keys
  }

  /** A node has seen an id exactly when it has shown it once or has one handler about to show it. */
  ghost predicate ShowsOnce(s: State) {
    forall n, id :: n in s.seen ==>
      multiset(s.shown)[(n, id)] + multiset(s.tasks)[Showing(n, id)] == B(id in s.seen[n])
  }

  ghost predicate KnownFrom(g: Graph, s: State, n: Node, id: MsgId)
    requires ValidGraph(g)
  {
    id in s.origin && Reaches(g, s.origin[id], n)
  }

  /** Only nodes reachable from the originator ever meet a message. */
  ghost predicate OnlyReachable(g: Graph, s: State)
    requires ValidGraph(g)
  {
    && (forall n, id :: n in s.seen && id in s.seen[n] ==> KnownFrom(g, s, n, id))
    && (forall i :: 0 <= i < |s.wire| ==> KnownFrom(g, s, s.wire[i].0, s.wire[i].1))
    && (forall t :: 0 <= t < |s.tasks| ==> s.tasks[t].node in s.seen && s.tasks[t].id in s.seen[s.tasks[t].node])
  }

  /** A handler at u that will still send `id` to v. */
  ghost predicate WillSend(s: State, u: Node, v: Node, id: MsgId) {
    || Showing(u, id) in s.tasks
    || exists t :: 0 <= t < |s.tasks| && s.tasks[t].Sending? && s.tasks[t].node == u && s.tasks[t].id == id && v in s.tasks[t].todo
  }

  /** v has seen the id, a copy is on its way to v, or u will still send one. */
  ghost predicate Promised(s: State, u: Node, v: Node, id: MsgId) {
    (v in s.seen && id in s.seen[v]) || (v, id) in s.wire || WillSend(s, u, v, id)
  }

  ghost predicate OriginsSeen(s: State) {
    forall id :: id in s.origin ==> s.origin[id] in s.seen && id in s.seen[s.origin[id]]
  }

  /** No neighbour is forgotten. */
  ghost predicate Covered(g: Graph, s: State)
    requires s.seen.Keys == g.nodes
  {
    && OriginsSeen(s)
    && (forall u, v, id :: u in s.seen && v in s.seen && id in s.seen[u] && Edge(g, u, v) ==> Promised(s, u, v, id))
  }

  ghost predicate Inv(g: Graph, s: State)
    requires ValidGraph(g)
  {
    WellFormed(g, s) && SeenOriginated(s) && ShowsOnce(s) && OnlyReachable(g, s) && Covered(g, s)
  }

  lemma SuffixShrinks<T>(whole: seq<T>, suffix: seq<T>)
    requires 0 < |suffix| <= |whole| && suffix == whole[|whole| - |suffix|..]
    ensures suffix[1..] == whole[|whole| - |suffix[1..]|..]
    ensures suffix[0] in whole
  {
    assert suffix[0] == whole[|whole| - |suffix|];
  }

  lemma ReceiptWellFormed(g: Graph, s: State, a: Action)
    requires ValidGraph(g) && WellFormed(g, s) && (a.Originate? || a.Deliver?) && Enabled(g, s, a)
    ensures WellFormed(g, Step(g, s, a))
  {
    var s' := Step(g, s, a);
    forall t | 0 <= t < |s'.tasks| ensures TaskFits(g, s'.tasks[t]) {
      if t < |s.tasks| {
        assert s'.tasks[t] == s.tasks[t];
      }
    }
  }

  lemma ShowWellFormed(g: Graph, s: State, a: Action)
    requires ValidGraph(g) && WellFormed(g, s) && a.Show? && Enabled(g, s, a)
    ensures WellFormed(g, Step(g, s, a))
  {
    var s' := Step(g, s, a);
    forall t | 0 <= t < |s'.tasks| ensures TaskFits(g, s'.tasks[t]) {
      assert TaskFits(g, s.tasks[t]);
    }
  }

  lemma SendWellFormed(g: Graph, s: State, a: Action)
    requires ValidGraph(g) && WellFormed(g, s) && a.Send? && Enabled(g, s, a)
    ensures WellFormed(g, Step(g, s, a))
  {
    var s' := Step(g, s, a);
    assert TaskFits(g, s.tasks[a.task]);
    if |s.tasks[a.task].todo| > 0 {
      SuffixShrinks(g.links[s.tasks[a.task].node], s.tasks[a.task].todo);
    }
    forall t | 0 <= t < |s'.tasks| ensures TaskFits(g, s'.tasks[t]) {
      assert t < |s.tasks| && TaskFits(g, s.tasks[t]);
    }
  }

  lemma StepWellFormed(g: Graph, s: State, a: Action)
    requires ValidGraph(g) && WellFormed(g, s) && Enabled(g, s, a)
    ensures WellFormed(g, Step(g, s, a))
  {
    match a
    case Originate(_, _, _) => ReceiptWellFormed(g, s, a);
    case Deliver(_, _) => ReceiptWellFormed(g, s, a);
    case Show(_) => ShowWellFormed(g, s, a);
    case Send(_) => SendWellFormed(g, s, a);
  }

  /** While at most MAX_SEEN ids exist, the cache never evicts. */
  lemma NeverEvicts(s: State, n: Node, id: MsgId, victim: MsgId)
    requires SeenOriginated(s) && n in s.seen
    requires |s.origin.Keys + {id}| <= MAX_SEEN
    ensures Remember(s.seen[n], id, victim) == s.seen[n] + {id}
  {
    SubsetSize(s.seen[n] + {id}, s.origin.Keys + {id});
  }

  /** The seen sets after a step, once eviction is excluded. */
  lemma SeenAfterOriginate(g: Graph, s: State, a: Action)
    requires ValidGraph(g) && s.seen.Keys == g.nodes && SeenOriginated(s)
    requires a.Originate? && Enabled(g, s, a)
    requires |Step(g, s, a).origin| <= MAX_SEEN
    ensures Step(g, s, a).seen == s.seen[a.node := s.seen[a.node] + {a.id}]
    ensures Step(g, s, a).origin.Keys == s.origin.Keys + {a.id}
  {
    assert s.origin[a.id := a.node].Keys == s.origin.Keys + {a.id};
    NeverEvicts(s, a.node, a.id, a.victim);
  }

  lemma SeenAfterDeliver(g: Graph, s: State, a: Action)
    requires ValidGraph(g) && s.seen.Keys == g.nodes && SeenOriginated(s)
    requires a.Deliver? && Enabled(g, s, a) && s.wire[a.copy].1 in s.origin
    requires |s.origin| <= MAX_SEEN
    ensures Step(g, s, a).seen == s.seen[s.wire[a.copy].0 := s.seen[s.wire[a.copy].0] + {s.wire[a.copy].1}]
  {
    var (n, id) := s.wire[a.copy];
    assert s.origin.Keys + {id} == s.origin.Keys;
    NeverEvicts(s, n, id, a.victim);
    if id in s.seen[n] {
      assert s.seen[n] + {id} == s.seen[n];
      assert s.seen[n := s.seen[n]] == s.seen;
    }
  }

  lemma StepSeenOriginated(g: Graph, s: State, a: Action)
    requires ValidGraph(g) && s.seen.Keys == g.nodes && SeenOriginated(s) && Enabled(g, s, a)
    requires a.Deliver? ==> s.wire[a.copy].1 in s.origin
    requires |Step(g, s, a).origin| <= MAX_SEEN
    ensures SeenOriginated(Step(g, s, a))
  {
    match a
    case Originate(_, _, _) => SeenAfterOriginate(g, s, a);
    case Deliver(_, _) => SeenAfterDeliver(g, s, a);
    case Show(_) =>
    case Send(_) =>
  }

  lemma OriginateShowsOnce(g: Graph, s: State, a: Action)
    requires ValidGraph(g) && s.seen.Keys == g.nodes && SeenOriginated(s) && ShowsOnce(s)
    requires a.Originate? && Enabled(g, s, a) && |Step(g, s, a).origin| <= MAX_SEEN
    ensures ShowsOnce(Step(g, s, a))
  {
    SeenAfterOriginate(g, s, a);
    assert a.id !in s.seen[a.node];
  }

  lemma DeliverShowsOnce(g: Graph, s: State, a: Action)
    requires ValidGraph(g) && s.seen.Keys == g.nodes && SeenOriginated(s) && ShowsOnce(s)
    requires a.Deliver? && Enabled(g, s, a) && s.wire[a.copy].1 in s.origin && |s.origin| <= MAX_SEEN
    ensures ShowsOnce(Step(g, s, a))
  {
    SeenAfterDeliver(g, s, a);
  }

  lemma HandlerShowsOnce(g: Graph, s: State, a: Action)
    requires ValidGraph(g) && s.seen.Keys == g.nodes && ShowsOnce(s)
    requires (a.Show? || a.Send?) && Enabled(g, s, a)
    ensures ShowsOnce(Step(g, s, a))
  {
    if a.Send? && |s.tasks[a.task].todo| == 0 {
      RemoveAtMultiset(s.tasks, a.task);
    }
  }

  lemma OriginateOnlyReachable(g: Graph, s: State, a: Action)
    requires ValidGraph(g) && s.seen.Keys == g.nodes && SeenOriginated(s) && OnlyReachable(g, s)
    requires a.Originate? && Enabled(g, s, a) && |Step(g, s, a).origin| <= MAX_SEEN
    ensures OnlyReachable(g, Step(g, s, a))
  {
    SeenAfterOriginate(g, s, a);
    ReachesSelf(g, a.node);
    var s' := Step(g, s, a);
    forall n, id | n in s'.seen && id in s'.seen[n] ensures KnownFrom(g, s', n, id) {
      if (n, id) != (a.node, a.id) {
        assert KnownFrom(g, s, n, id);
      }
    }
    forall i | 0 <= i < |s'.wire| ensures KnownFrom(g, s', s'.wire[i].0, s'.wire[i].1) {
      assert KnownFrom(g, s, s.wire[i].0, s.wire[i].1);
    }
  }

  lemma DeliverOnlyReachable(g: Graph, s: State, a: Action)
    requires ValidGraph(g) && s.seen.Keys == g.nodes && SeenOriginated(s) && OnlyReachable(g, s)
    requires a.Deliver? && Enabled(g, s, a) && |s.origin| <= MAX_SEEN
    ensures OnlyReachable(g, Step(g, s, a))
  {
    var s' := Step(g, s, a);
    SeenAfterDeliver(g, s, a);
    forall i | 0 <= i < |s'.wire| ensures KnownFrom(g, s', s'.wire[i].0, s'.wire[i].1) {
      RemainingCopy(g, s, a, i);
    }
    forall n, id | n in s'.seen && id in s'.seen[n] ensures KnownFrom(g, s', n, id) {
      if id !in s.seen[n] {
        assert (n, id) == s.wire[a.copy];
      }
      assert KnownFrom(g, s, n, id);
    }
  }

  lemma RemainingCopy(g: Graph, s: State, a: Action, i: nat)
    requires ValidGraph(g) && s.seen.Keys == g.nodes && OnlyReachable(g, s)
    requires a.Deliver? && Enabled(g, s, a) && i < |Step(g, s, a).wire|
    ensures KnownFrom(g, Step(g, s, a), Step(g, s, a).wire[i].0, Step(g, s, a).wire[i].1)
  {
    var j := if i < a.copy then i else i + 1;
    assert Step(g, s, a).wire[i] == s.wire[j];
    assert KnownFrom(g, s, s.wire[j].0, s.wire[j].1);
  }

  lemma HandlerOnlyReachable(g: Graph, s: State, a: Action)
    requires ValidGraph(g) && WellFormed(g, s) && OnlyReachable(g, s)
    requires (a.Show? || a.Send?) && Enabled(g, s, a)
    ensures OnlyReachable(g, Step(g, s, a))
  {
    var s' := Step(g, s, a);
    assert s'.seen == s.seen && s'.origin == s.origin;
    if a.Send? && |s.tasks[a.task].todo| > 0 && (s.tasks[a.task].node, s.tasks[a.task].todo[0]) in g.read {
      SentCopyKnown(g, s, a.task);
    }
    forall n, id | n in s'.seen && id in s'.seen[n] ensures KnownFrom(g, s', n, id) {
      assert KnownFrom(g, s, n, id);
    }
    forall i | 0 <= i < |s'.wire| ensures KnownFrom(g, s', s'.wire[i].0, s'.wire[i].1) {
      if i < |s.wire| {
        assert KnownFrom(g, s, s.wire[i].0, s.wire[i].1);
      }
    }
  }

  lemma SentCopyKnown(g: Graph, s: State, t: nat)
    requires ValidGraph(g) && WellFormed(g, s) && OnlyReachable(g, s)
    requires t < |s.tasks| && s.tasks[t].Sending? && |s.tasks[t].todo| > 0
    requires (s.tasks[t].node, s.tasks[t].todo[0]) in g.read
    ensures KnownFrom(g, s, s.tasks[t].todo[0], s.tasks[t].id)
  {
    var task := s.tasks[t];
    assert TaskFits(g, task);
    SuffixShrinks(g.links[task.node], task.todo);
    assert KnownFrom(g, s, task.node, task.id);
    assert Edge(g, task.node, task.todo[0]);
    ReachesStep(g, s.origin[task.id], task.node, task.todo[0]);
  }

  // ---------------------------------------------------------------- no neighbour is forgotten

  lemma WillSendKept(s: State, s': State, u: Node, v: Node, id: MsgId)
    requires WillSend(s, u, v, id)
    requires forall task :: task in s.tasks ==> task in s'.tasks
    ensures WillSend(s', u, v, id)
  {
    if Showing(u, id) !in s.tasks {
      var t :| 0 <= t < |s.tasks| && s.tasks[t].Sending? && s.tasks[t].node == u && s.tasks[t].id == id && v in s.tasks[t].todo;
      assert s.tasks[t] in s'.tasks;
      var t' :| 0 <= t' < |s'.tasks| && s'.tasks[t'] == s.tasks[t];
    }
  }

  lemma ArrivalOriginsSeen(g: Graph, s: State, a: Action)
    requires ValidGraph(g) && s.seen.Keys == g.nodes && SeenOriginated(s) && OriginsSeen(s)
    requires (a.Originate? || a.Deliver?) && Enabled(g, s, a) && |Step(g, s, a).origin| <= MAX_SEEN
    requires a.Deliver? ==> s.wire[a.copy].1 in s.origin
    ensures OriginsSeen(Step(g, s, a))
  {
    if a.Originate? {
      SeenAfterOriginate(g, s, a);
    } else {
      SeenAfterDeliver(g, s, a);
    }
  }

  lemma ArrivalCovered(g: Graph, s: State, a: Action)
    requires ValidGraph(g) && s.seen.Keys == g.nodes && SeenOriginated(s) && Covered(g, s)
    requires (a.Originate? || a.Deliver?) && Enabled(g, s, a) && |Step(g, s, a).origin| <= MAX_SEEN
    requires a.Deliver? ==> s.wire[a.copy].1 in s.origin
    ensures Covered(g, Step(g, s, a))
  {
    ArrivalOriginsSeen(g, s, a);
    var s' := Step(g, s, a);
    forall u, v, id | u in s'.seen && v in s'.seen && id in s'.seen[u] && Edge(g, u, v)
      ensures Promised(s', u, v, id)
    {
      ArrivalPromised(g, s, a, u, v, id);
    }
  }

  lemma ArrivalPromised(g: Graph, s: State, a: Action, u: Node, v: Node, id: MsgId)
    requires ValidGraph(g) && s.seen.Keys == g.nodes && SeenOriginated(s) && Covered(g, s)
    requires (a.Originate? || a.Deliver?) && Enabled(g, s, a) && |Step(g, s, a).origin| <= MAX_SEEN
    requires a.Deliver? ==> s.wire[a.copy].1 in s.origin
    requires u in g.nodes && v in g.nodes && id in Step(g, s, a).seen[u] && Edge(g, u, v)
    ensures Promised(Step(g, s, a), u, v, id)
  {
    var s' := Step(g, s, a);
    var n := if a.Originate? then a.node else s.wire[a.copy].0;
    var x := if a.Originate? then a.id else s.wire[a.copy].1;
    if a.Originate? {
      SeenAfterOriginate(g, s, a);
    } else {
      SeenAfterDeliver(g, s, a);
    }
    if id in s.seen[u] {
      assert Promised(s, u, v, id);
      if (v, id) == (n, x) || id in s.seen[v] {
      } else if (v, id) in s.wire {
        var i :| 0 <= i < |s.wire| && s.wire[i] == (v, id);
        if a.Deliver? {
          assert i != a.copy;
          assert s'.wire[if i < a.copy then i else i - 1] == (v, id);
        }
      } else {
        WillSendKept(s, s', u, v, id);
      }
    } else {
      assert (u, id) == (n, x);
      assert s'.tasks[|s.tasks|] == Showing(u, id);
    }
  }

  lemma HandlerPromised(g: Graph, s: State, a: Action, u: Node, v: Node, id: MsgId)
    requires ValidGraph(g) && WellFormed(g, s)
    requires (a.Show? || a.Send?) && Enabled(g, s, a)
    requires Promised(s, u, v, id) && Edge(g, u, v)
    ensures Promised(Step(g, s, a), u, v, id)
  {
    var s' := Step(g, s, a);
    if WillSend(s, u, v, id) {
      var t :| 0 <= t < |s.tasks| && (s.tasks[t] == Showing(u, id)
                 || (s.tasks[t].Sending? && s.tasks[t].node == u && s.tasks[t].id == id && v in s.tasks[t].todo));
      if t == a.task {
        OwnTaskPromised(g, s, a, v);
      } else {
        var t' := if a.Send? && |s.tasks[a.task].todo| == 0 && t > a.task then t - 1 else t;
        assert s'.tasks[t'] == s.tasks[t];
      }
    } else if (v, id) in s.wire {
      var i :| 0 <= i < |s.wire| && s.wire[i] == (v, id);
      assert s'.wire[i] == (v, id);
    }
  }

  /** The handler that moves keeps its own promise: the peer is next on its list, or just served. */
  lemma OwnTaskPromised(g: Graph, s: State, a: Action, v: Node)
    requires ValidGraph(g) && WellFormed(g, s)
    requires (a.Show? || a.Send?) && Enabled(g, s, a) && Edge(g, s.tasks[a.task].node, v)
    requires s.tasks[a.task].Sending? ==> v in s.tasks[a.task].todo
    ensures Promised(Step(g, s, a), s.tasks[a.task].node, v, s.tasks[a.task].id)
  {
    var s' := Step(g, s, a);
    var task := s.tasks[a.task];
    if a.Show? {
      assert s'.tasks[a.task] == Sending(task.node, task.id, g.links[task.node]);
    } else if task.todo[0] == v {
      assert s'.wire[|s.wire|] == (v, task.id);
    } else {
      assert task.todo == [task.todo[0]] + task.todo[1..];
      assert v in task.todo[1..];
      assert s'.tasks[a.task] == task.(todo := task.todo[1..]);
    }
  }

  lemma HandlerCovered(g: Graph, s: State, a: Action)
    requires ValidGraph(g) && WellFormed(g, s) && Covered(g, s)
    requires (a.Show? || a.Send?) && Enabled(g, s, a)
    ensures Covered(g, Step(g, s, a))
  {
    var s' := Step(g, s, a);
    assert s'.seen == s.seen && s'.origin == s.origin;
    forall u, v, id | u in s'.seen && v in s'.seen && id in s'.seen[u] && Edge(g, u, v)
      ensures Promised(s', u, v, id)
    {
      HandlerPromised(g, s, a, u, v, id);
    }
  }

  lemma StepInv(g: Graph, s: State, a: Action)
    requires ValidGraph(g) && Inv(g, s) && Enabled(g, s, a)
    requires |Step(g, s, a).origin| <= MAX_SEEN
    ensures Inv(g, Step(g, s, a))
  {
    StepWellFormed(g, s, a);
    if a.Deliver? {
      assert KnownFrom(g, s, s.wire[a.copy].0, s.wire[a.copy].1);
    }
    StepSeenOriginated(g, s, a);
    match a
    case Originate(_, _, _) =>
      OriginateShowsOnce(g, s, a);
      OriginateOnlyReachable(g, s, a);
      ArrivalCovered(g, s, a);
    case Deliver(_, _) =>
      DeliverShowsOnce(g, s, a);
      DeliverOnlyReachable(g, s, a);
      ArrivalCovered(g, s, a);
    case Show(_) =>
      HandlerShowsOnce(g, s, a);
      HandlerOnlyReachable(g, s, a);
      HandlerCovered(g, s, a);
    case Send(_) =>
      HandlerShowsOnce(g, s, a);
      HandlerOnlyReachable(g, s, a);
      HandlerCovered(g, s, a);
  }
}
