/** When the chat flood shows a message twice (backend/api/routes.py:854-937): exactly when more ids than
    the cache holds have been seen and copies of the message can reach the node in two ways. */
module GossipRepeats {
  import opened Seqs
  import opened Gossip
  import opened GossipRuns

  // ---------------------------------------------------------------- ways

  /** The node at the other end of u's i-th link, if that node reads the connection. */
  ghost function Hop(g: Graph, u: Node, i: nat): Option<Node>
    requires ValidGraph(g) && u in g.nodes
  {
    if i < |g.links[u]| && (u, g.links[u][i]) in g.read then Some(g.links[u][i]) else None
  }

  /** Where a copy gets that takes, at each node, the link at the given position. */
  ghost function End(g: Graph, from: Node, way: seq<nat>): (r: Option<Node>)
    requires ValidGraph(g) && from in g.nodes
    ensures r.Some? ==> r.value in g.nodes
    decreases |way|
  {
    if |way| == 0 then Some(from)
    else match Hop(g, from, way[0])
      case None => None
      case Some(v) => End(g, v, way[1..])
  }

  ghost predicate HasWay(g: Graph, from: Node, n: Node)
    requires ValidGraph(g) && from in g.nodes
  {
    exists way :: End(g, from, way) == Some(n)
  }

  /** Copies of a message can reach n from its originator in two different ways. */
  ghost predicate TwoWays(g: Graph, from: Node, n: Node)
    requires ValidGraph(g) && from in g.nodes
  {
    exists a, b :: a != b && End(g, from, a) == Some(n) && End(g, from, b) == Some(n)
  }

  lemma {:induction false} EndSnoc(g: Graph, from: Node, way: seq<nat>, i: nat)
    requires ValidGraph(g) && from in g.nodes && End(g, from, way).Some?
    ensures End(g, from, way + [i]) == Hop(g, End(g, from, way).value, i)
    decreases |way|
  {
    if |way| == 0 {
      assert way + [i] == [i];
      assert [i][1..] == [];
    } else {
      assert (way + [i])[1..] == way[1..] + [i];
      EndSnoc(g, Hop(g, from, way[0]).value, way[1..], i);
    }
  }

  lemma HasWayStep(g: Graph, from: Node, u: Node, i: nat)
    requires ValidGraph(g) && from in g.nodes && u in g.nodes && HasWay(g, from, u) && Hop(g, u, i).Some?
    ensures HasWay(g, from, Hop(g, u, i).value)
  {
    var way :| End(g, from, way) == Some(u);
    EndSnoc(g, from, way, i);
  }

  // ---------------------------------------------------------------- tokens

  /** The copies a handler at u still has to put on the wire. */
  ghost function Sends(g: Graph, u: Node, id: MsgId, todo: seq<Node>): multiset<(Node, MsgId)> {
    if |todo| == 0 then multiset{}
    else (if (u, todo[0]) in g.read then multiset{(todo[0], id)} else multiset{}) + Sends(g, u, id, todo[1..])
  }

  ghost function Worth(g: Graph, task: Task, n: Node, id: MsgId): nat {
    match task
    case Showing(_, _) => B(task == Showing(n, id))
    case Sending(u, x, todo) => Sends(g, u, x, todo)[(n, id)]
  }

  ghost function Held(g: Graph, tasks: seq<Task>, n: Node, id: MsgId): nat {
    if |tasks| == 0 then 0 else Worth(g, tasks[0], n, id) + Held(g, tasks[1..], n, id)
  }

  /** How often n has shown the message or can still do so without another show elsewhere. */
  ghost function Tokens(g: Graph, s: State, n: Node, id: MsgId): nat {
    multiset(s.shown)[(n, id)] + multiset(s.wire)[(n, id)] + Held(g, s.tasks, n, id)
  }

  lemma {:induction false} HeldAppend(g: Graph, tasks: seq<Task>, task: Task, n: Node, id: MsgId)
    ensures Held(g, tasks + [task], n, id) == Held(g, tasks, n, id) + Worth(g, task, n, id)
  {
    if |tasks| == 0 {
      assert tasks + [task] == [task];
      assert [task][1..] == [];
    } else {
      HeldAppend(g, tasks[1..], task, n, id);
      assert (tasks + [task])[1..] == tasks[1..] + [task];
    }
  }

  lemma {:induction false} HeldUpdate(g: Graph, tasks: seq<Task>, t: nat, task: Task, n: Node, id: MsgId)
    requires t < |tasks|
    ensures Held(g, tasks[t := task], n, id) + Worth(g, tasks[t], n, id) == Held(g, tasks, n, id) + Worth(g, task, n, id)
  {
    if t == 0 {
      assert tasks[t := task][1..] == tasks[1..];
    } else {
      HeldUpdate(g, tasks[1..], t - 1, task, n, id);
      assert tasks[t := task][1..] == tasks[1..][t - 1 := task];
    }
  }

  lemma {:induction false} HeldRemove(g: Graph, tasks: seq<Task>, t: nat, n: Node, id: MsgId)
    requires t < |tasks|
    ensures Held(g, RemoveAt(tasks, t), n, id) + Worth(g, tasks[t], n, id) == Held(g, tasks, n, id)
  {
    if t == 0 {
      assert RemoveAt(tasks, 0) == tasks[1..];
    } else {
      HeldRemove(g, tasks[1..], t - 1, n, id);
      assert RemoveAt(tasks, t)[1..] == RemoveAt(tasks[1..], t - 1);
      assert RemoveAt(tasks, t)[0] == tasks[0];
    }
  }

  lemma {:induction false} HeldHas(g: Graph, tasks: seq<Task>, t: nat, n: Node, id: MsgId)
    requires t < |tasks|
    ensures Worth(g, tasks[t], n, id) <= Held(g, tasks, n, id)
  {
    if t > 0 {
      HeldHas(g, tasks[1..], t - 1, n, id);
    }
  }

  lemma {:induction false} SendsHas(g: Graph, u: Node, id: MsgId, todo: seq<Node>, i: nat)
    requires i < |todo| && (u, todo[i]) in g.read
    ensures (todo[i], id) in Sends(g, u, id, todo)
  {
    if i > 0 {
      SendsHas(g, u, id, todo[1..], i - 1);
    }
  }

  lemma {:induction false} SendsHasBoth(g: Graph, u: Node, id: MsgId, todo: seq<Node>, i: nat, j: nat)
    requires i < j < |todo| && (u, todo[i]) in g.read && (u, todo[j]) in g.read
    ensures multiset{(todo[i], id), (todo[j], id)} <= Sends(g, u, id, todo)
  {
    if i > 0 {
      SendsHasBoth(g, u, id, todo[1..], i - 1, j - 1);
    } else {
      SendsHas(g, u, id, todo[1..], j - 1);
    }
  }

  lemma {:induction false} SendsFrom(g: Graph, u: Node, id: MsgId, todo: seq<Node>, v: Node, x: MsgId) returns (i: nat)
    requires (v, x) in Sends(g, u, id, todo)
    ensures x == id && i < |todo| && todo[i] == v && (u, v) in g.read
  {
    if (u, todo[0]) in g.read && (todo[0], id) == (v, x) {
      i := 0;
    } else {
      i := SendsFrom(g, u, id, todo[1..], v, x);
      i := i + 1;
    }
  }

  lemma {:induction false} SendsFromTwo(g: Graph, u: Node, id: MsgId, todo: seq<Node>, v: Node) returns (i: nat, j: nat)
    requires Sends(g, u, id, todo)[(v, id)] > 1
    ensures i < j < |todo| && todo[i] == v && todo[j] == v && (u, v) in g.read
  {
    if (u, todo[0]) in g.read && todo[0] == v {
      i := 0;
      j := SendsFrom(g, u, id, todo[1..], v, id);
      j := j + 1;
    } else {
      i, j := SendsFromTwo(g, u, id, todo[1..], v);
      i, j := i + 1, j + 1;
    }
  }

  // ---------------------------------------------------------------- with one way, one show

  /** Every token is of a message that was sent, at a node copies of it can reach. */
  ghost predicate Traced(g: Graph, s: State)
    requires ValidGraph(g)
  {
    && (forall id :: id in s.origin ==> s.origin[id] in g.nodes)
    && (forall n, id :: Tokens(g, s, n, id) > 0 ==> TracedOne(g, s, n, id))
  }

  ghost predicate TracedOne(g: Graph, s: State, n: Node, id: MsgId)
    requires ValidGraph(g)
  {
    && id in s.origin && s.origin[id] in g.nodes && n in g.nodes
    && HasWay(g, s.origin[id], n)
    && (n == s.origin[id] || exists u, i :: Sender(g, s, u, i, n, id))
  }

  /** u has shown the message and n is at the end of its i-th link. */
  ghost predicate Sender(g: Graph, s: State, u: Node, i: nat, n: Node, id: MsgId)
    requires ValidGraph(g)
  {
    (u, id) in s.shown && u in g.nodes && Hop(g, u, i) == Some(n)
  }

  ghost predicate OneEach(g: Graph, s: State)
    requires ValidGraph(g)
  {
    forall id, n :: id in s.origin && OneWay(g, s.origin[id], n) ==> Tokens(g, s, n, id) <= 1
  }

  ghost predicate OneWay(g: Graph, from: Node, n: Node)
    requires ValidGraph(g)
  {
    from in g.nodes && !TwoWays(g, from, n)
  }

  lemma TokensAfterArrival(g: Graph, s: State, a: Action, n: Node, id: MsgId)
    requires ValidGraph(g) && s.seen.Keys == g.nodes && Enabled(g, s, a)
    ensures a.Originate? ==> Tokens(g, Step(g, s, a), n, id) == Tokens(g, s, n, id) + B((n, id) == (a.node, a.id))
    ensures a.Deliver? ==> Tokens(g, Step(g, s, a), n, id) <= Tokens(g, s, n, id)
  {
    if a.Originate? {
      HeldAppend(g, s.tasks, Showing(a.node, a.id), n, id);
    }
    if a.Deliver? {
      RemoveAtMultiset(s.wire, a.copy);
      HeldAppend(g, s.tasks, Showing(s.wire[a.copy].0, s.wire[a.copy].1), n, id);
    }
  }

  lemma TokensAfterShow(g: Graph, s: State, a: Action, n: Node, id: MsgId)
    requires ValidGraph(g) && s.seen.Keys == g.nodes && a.Show? && Enabled(g, s, a)
    ensures var task := s.tasks[a.task];
            Tokens(g, Step(g, s, a), n, id) == Tokens(g, s, n, id) + Sends(g, task.node, task.id, g.links[task.node])[(n, id)]
  {
    var task := s.tasks[a.task];
    HeldUpdate(g, s.tasks, a.task, Sending(task.node, task.id, g.links[task.node]), n, id);
  }

  lemma TokensAfterSend(g: Graph, s: State, a: Action, n: Node, id: MsgId)
    requires ValidGraph(g) && s.seen.Keys == g.nodes && a.Send? && Enabled(g, s, a)
    ensures Tokens(g, Step(g, s, a), n, id) == Tokens(g, s, n, id)
  {
    var task := s.tasks[a.task];
    if |task.todo| == 0 {
      HeldRemove(g, s.tasks, a.task, n, id);
    } else {
      HeldUpdate(g, s.tasks, a.task, task.(todo := task.todo[1..]), n, id);
    }
  }

  lemma TracedKept(g: Graph, s: State, s': State, n: Node, id: MsgId)
    requires ValidGraph(g) && TracedOne(g, s, n, id)
    requires id in s'.origin && s'.origin[id] == s.origin[id]
    requires forall x :: x in s.shown ==> x in s'.shown
    ensures TracedOne(g, s', n, id)
  {
    if n != s.origin[id] {
      var u, i :| Sender(g, s, u, i, n, id);
      assert Sender(g, s', u, i, n, id);
    }
  }

  lemma OriginateTraced(g: Graph, s: State, a: Action)
    requires ValidGraph(g) && s.seen.Keys == g.nodes && Traced(g, s) && a.Originate? && Enabled(g, s, a)
    ensures Traced(g, Step(g, s, a))
  {
    var s' := Step(g, s, a);
    assert End(g, a.node, []) == Some(a.node);
    assert TracedOne(g, s', a.node, a.id);
    forall n: Node, id: MsgId | Tokens(g, s', n, id) > 0 ensures TracedOne(g, s', n, id) {
      TokensAfterArrival(g, s, a, n, id);
      if Tokens(g, s, n, id) > 0 {
        TracedKept(g, s, s', n, id);
      }
    }
  }

  lemma QuietTraced(g: Graph, s: State, a: Action)
    requires ValidGraph(g) && s.seen.Keys == g.nodes && Traced(g, s) && Enabled(g, s, a)
    requires a.Deliver? || a.Send?
    ensures Traced(g, Step(g, s, a))
  {
    var s' := Step(g, s, a);
    forall n: Node, id: MsgId | Tokens(g, s', n, id) > 0 ensures TracedOne(g, s', n, id) {
      if a.Deliver? {
        TokensAfterArrival(g, s, a, n, id);
      } else {
        TokensAfterSend(g, s, a, n, id);
      }
      TracedKept(g, s, s', n, id);
    }
  }

  lemma ShowTraced(g: Graph, s: State, a: Action)
    requires ValidGraph(g) && s.seen.Keys == g.nodes && Traced(g, s) && a.Show? && Enabled(g, s, a)
    ensures Traced(g, Step(g, s, a))
  {
    var s' := Step(g, s, a);
    var task := s.tasks[a.task];
    forall n: Node, id: MsgId | Tokens(g, s', n, id) > 0 ensures TracedOne(g, s', n, id) {
      TokensAfterShow(g, s, a, n, id);
      if Tokens(g, s, n, id) > 0 {
        TracedKept(g, s, s', n, id);
      } else {
        NewTraced(g, s, a, n, id);
      }
    }
  }

  /** The copies a show gives rise to. */
  lemma NewTraced(g: Graph, s: State, a: Action, v: Node, id: MsgId)
    requires ValidGraph(g) && s.seen.Keys == g.nodes && Traced(g, s) && a.Show? && Enabled(g, s, a)
    requires (v, id) in Sends(g, s.tasks[a.task].node, s.tasks[a.task].id, g.links[s.tasks[a.task].node])
    ensures TracedOne(g, Step(g, s, a), v, id)
  {
    var task := s.tasks[a.task];
    var i := SendsFrom(g, task.node, task.id, g.links[task.node], v, id);
    HeldHas(g, s.tasks, a.task, s.tasks[a.task].node, s.tasks[a.task].id);
    assert TracedOne(g, s, task.node, task.id);
    HasWayStep(g, s.origin[id], task.node, i);
    assert Sender(g, Step(g, s, a), task.node, i, v, id);
  }

  lemma StepTraced(g: Graph, s: State, a: Action)
    requires ValidGraph(g) && s.seen.Keys == g.nodes && Traced(g, s) && Enabled(g, s, a)
    ensures Traced(g, Step(g, s, a))
  {
    match a
    case Originate(_, _, _) => OriginateTraced(g, s, a);
    case Deliver(_, _) => QuietTraced(g, s, a);
    case Show(_) => ShowTraced(g, s, a);
    case Send(_) => QuietTraced(g, s, a);
  }

  /** The only way to a node continues the only way to the node before it. */
  lemma OneWayBack(g: Graph, from: Node, u: Node, i: nat)
    requires ValidGraph(g) && from in g.nodes && u in g.nodes && Hop(g, u, i).Some?
    requires OneWay(g, from, Hop(g, u, i).value)
    ensures OneWay(g, from, u)
  {
    forall a, b | End(g, from, a) == Some(u) && End(g, from, b) == Some(u) ensures a == b {
      EndSnoc(g, from, a, i);
      EndSnoc(g, from, b, i);
      assert a + [i] == b + [i];
      assert a == (a + [i])[..|a|] && b == (b + [i])[..|b|];
    }
  }

  lemma LastHop(g: Graph, from: Node, u: Node, i: nat, v: Node, j: nat)
    requires ValidGraph(g) && from in g.nodes && u in g.nodes && v in g.nodes
    requires HasWay(g, from, u) && HasWay(g, from, v)
    requires Hop(g, u, i).Some? && Hop(g, v, j) == Hop(g, u, i) && OneWay(g, from, Hop(g, u, i).value)
    ensures u == v && i == j && Hop(g, u, i) != Some(from)
  {
    var a :| End(g, from, a) == Some(u);
    var b :| End(g, from, b) == Some(v);
    EndSnoc(g, from, a, i);
    EndSnoc(g, from, b, j);
    assert a + [i] == b + [j];
    assert a == (a + [i])[..|a|] && b == (b + [j])[..|b|];
    assert End(g, from, []) == Some(from);
    assert a + [i] != [];
  }

  lemma ShowOneEach(g: Graph, s: State, a: Action)
    requires ValidGraph(g) && s.seen.Keys == g.nodes && Traced(g, s) && OneEach(g, s) && a.Show? && Enabled(g, s, a)
    ensures OneEach(g, Step(g, s, a))
  {
    var s' := Step(g, s, a);
    var task := s.tasks[a.task];
    forall id: MsgId, n: Node | id in s'.origin && OneWay(g, s'.origin[id], n) ensures Tokens(g, s', n, id) <= 1 {
      TokensAfterShow(g, s, a, n, id);
      if (n, id) in Sends(g, task.node, task.id, g.links[task.node]) {
        NewIsFirst(g, s, a, n, id);
      }
    }
  }

  /** A show hands a copy to a node with only one way to it at most once, and that node has had none. */
  lemma NewIsFirst(g: Graph, s: State, a: Action, n: Node, id: MsgId)
    requires ValidGraph(g) && s.seen.Keys == g.nodes && Traced(g, s) && OneEach(g, s) && a.Show? && Enabled(g, s, a)
    requires id in s.origin && OneWay(g, s.origin[id], n)
    requires (n, id) in Sends(g, s.tasks[a.task].node, s.tasks[a.task].id, g.links[s.tasks[a.task].node])
    ensures Sends(g, s.tasks[a.task].node, s.tasks[a.task].id, g.links[s.tasks[a.task].node])[(n, id)] == 1
    ensures Tokens(g, s, n, id) == 0
  {
    var u := s.tasks[a.task].node;
    var i := SendsFrom(g, u, s.tasks[a.task].id, g.links[u], n, id);
    ShowerIsNew(g, s, a, id, i);
    if Sends(g, u, id, g.links[u])[(n, id)] > 1 {
      var j, k := SendsFromTwo(g, u, id, g.links[u], n);
      LastHop(g, s.origin[id], u, j, u, k);
      assert false;
    }
    if Tokens(g, s, n, id) > 0 {
      LastHop(g, s.origin[id], u, i, u, i);
      assert TracedOne(g, s, n, id);
      var v, j :| Sender(g, s, v, j, n, id);
      ShownTraced(g, s, v, id);
      LastHop(g, s.origin[id], u, i, v, j);
      assert false;
    }
  }

  lemma ShownTraced(g: Graph, s: State, v: Node, id: MsgId)
    requires ValidGraph(g) && Traced(g, s) && (v, id) in s.shown
    ensures TracedOne(g, s, v, id)
  {
    assert Tokens(g, s, v, id) > 0;
  }

  /** A node with one way to it that is about to show a message has not shown it before. */
  lemma ShowerIsNew(g: Graph, s: State, a: Action, id: MsgId, i: nat)
    requires ValidGraph(g) && s.seen.Keys == g.nodes && Traced(g, s) && OneEach(g, s) && a.Show? && Enabled(g, s, a)
    requires id == s.tasks[a.task].id && id in s.origin && Hop(g, s.tasks[a.task].node, i).Some?
    requires OneWay(g, s.origin[id], Hop(g, s.tasks[a.task].node, i).value)
    ensures (s.tasks[a.task].node, id) !in s.shown
    ensures HasWay(g, s.origin[id], s.tasks[a.task].node)
  {
    var u := s.tasks[a.task].node;
    HeldHas(g, s.tasks, a.task, s.tasks[a.task].node, s.tasks[a.task].id);
    assert TracedOne(g, s, u, id);
    OneWayBack(g, s.origin[id], u, i);
    assert Tokens(g, s, u, id) <= 1;
  }

  lemma QuietOneEach(g: Graph, s: State, a: Action)
    requires ValidGraph(g) && s.seen.Keys == g.nodes && Traced(g, s) && OneEach(g, s) && !a.Show? && Enabled(g, s, a)
    ensures OneEach(g, Step(g, s, a))
  {
    var s' := Step(g, s, a);
    forall id: MsgId, n: Node | id in s'.origin && OneWay(g, s'.origin[id], n) ensures Tokens(g, s', n, id) <= 1 {
      if a.Send? {
        TokensAfterSend(g, s, a, n, id);
      } else {
        TokensAfterArrival(g, s, a, n, id);
      }
      FreshHasNone(g, s, a, n);
    }
  }

  lemma FreshHasNone(g: Graph, s: State, a: Action, n: Node)
    requires ValidGraph(g) && s.seen.Keys == g.nodes && Traced(g, s) && Enabled(g, s, a)
    ensures a.Originate? ==> Tokens(g, s, n, a.id) == 0
  {
    assert a.Originate? && Tokens(g, s, n, a.id) > 0 ==> TracedOne(g, s, n, a.id);
  }

  lemma StepOneEach(g: Graph, s: State, a: Action)
    requires ValidGraph(g) && s.seen.Keys == g.nodes && Traced(g, s) && OneEach(g, s) && Enabled(g, s, a)
    ensures OneEach(g, Step(g, s, a))
  {
    if a.Show? {
      ShowOneEach(g, s, a);
    } else {
      QuietOneEach(g, s, a);
    }
  }

  lemma {:induction false} RunOneEach(g: Graph, acts: seq<Action>)
    requires ValidGraph(g) && After(g, acts).Some?
    ensures Traced(g, After(g, acts).value) && OneEach(g, After(g, acts).value)
  {
    if |acts| > 0 {
      var last := |acts| - 1;
      RunOneEach(g, acts[..last]);
      StepTraced(g, After(g, acts[..last]).value, acts[last]);
      StepOneEach(g, After(g, acts[..last]).value, acts[last]);
    }
  }

  /** Whatever the caches forget: where copies of a message can come in one way only, every run shows
      it at most once. */
  lemma OneWayShowsOnce(g: Graph, acts: seq<Action>, n: Node, id: MsgId)
    requires ValidGraph(g) && After(g, acts).Some?
    requires id in After(g, acts).value.origin && OneWay(g, After(g, acts).value.origin[id], n)
    ensures multiset(After(g, acts).value.shown)[(n, id)] <= 1
  {
    RunOneEach(g, acts);
    assert Tokens(g, After(g, acts).value, n, id) <= 1;
  }

  // ---------------------------------------------------------------- filling every cache

  ghost predicate Reachable(g: Graph, s: State)
    requires ValidGraph(g)
  {
    exists acts :: After(g, acts) == Some(s)
  }

  lemma ReachableInit(g: Graph)
    requires ValidGraph(g)
    ensures Reachable(g, Init(g))
  {
    assert After(g, []) == Some(Init(g));
  }

  lemma ReachableStep(g: Graph, s: State, a: Action)
    requires ValidGraph(g) && Reachable(g, s) && s.seen.Keys == g.nodes && Enabled(g, s, a)
    ensures Reachable(g, Step(g, s, a))
  {
    var acts :| After(g, acts) == Some(s);
    assert (acts + [a])[..|acts|] == acts;
    assert After(g, acts + [a]) == Some(Step(g, s, a));
  }

  lemma ReachableInv(g: Graph, s: State)
    requires ValidGraph(g) && Reachable(g, s) && |s.origin| <= MAX_SEEN
    ensures Inv(g, s)
  {
    var acts :| After(g, acts) == Some(s);
    RunInv(g, acts);
  }

  /** The messages 0 to k - 1 were sent, all by one node. */
  ghost predicate SentBy(origin: map<MsgId, Node>, from: Node, k: nat) {
    && |origin.Keys| == k
    && Upto(origin.Keys, k)
    && forall id :: id in origin ==> origin[id] == from
  }

  ghost predicate Upto(ids: set<MsgId>, k: nat) {
    forall id :: id in ids <==> 0 <= id < k
  }

  lemma OneMoreSent(origin: map<MsgId, Node>, from: Node, k: nat)
    requires SentBy(origin, from, k)
    ensures SentBy(origin[k := from], from, k + 1)
  {
    var ids := origin.Keys;
    assert Upto(ids + {k}, k + 1);
    assert |ids + {k}| == k + 1;
    assert origin[k := from].Keys == ids + {k};
  }

  lemma SendNext(g: Graph, s: State, from: Node, k: nat)
    requires ValidGraph(g) && from in g.nodes
    requires Reachable(g, s) && s.seen.Keys == g.nodes && SentBy(s.origin, from, k)
    ensures var a := Originate(from, k, k);
            Enabled(g, s, a) && Reachable(g, Step(g, s, a)) && SentBy(Step(g, s, a).origin, from, k + 1)
  {
    OneMoreSent(s.origin, from, k);
    ReachableStep(g, s, Originate(from, k, k));
  }

  lemma {:induction false} SendMany(g: Graph, from: Node, k: nat) returns (s: State)
    requires ValidGraph(g) && from in g.nodes && k <= MAX_SEEN
    ensures Reachable(g, s) && s.seen.Keys == g.nodes && SentBy(s.origin, from, k)
  {
    if k == 0 {
      s := Init(g);
      ReachableInit(g);
    } else {
      var before := SendMany(g, from, k - 1);
      SendNext(g, before, from, k - 1);
      s := Step(g, before, Originate(from, k - 1, k - 1));
    }
  }

  lemma {:induction false} SomeDegree(g: Graph, nodes: set<Node>) returns (degree: nat)
    requires ValidGraph(g) && nodes <= g.nodes
    ensures forall u :: u in nodes ==> |g.links[u]| <= degree
    decreases |nodes|
  {
    if nodes == {} {
      degree := 0;
    } else {
      var u :| u in nodes;
      var rest := SomeDegree(g, nodes - {u});
      degree := if |g.links[u]| > rest then |g.links[u]| else rest;
    }
  }

  lemma SettleStep(g: Graph, degree: nat, s: State, a: Action)
    requires ValidGraph(g) && DegreeBound(g, degree) && Reachable(g, s) && Inv(g, s) && |s.origin| <= MAX_SEEN
    requires !a.Originate? && Enabled(g, s, a)
    ensures var next := Step(g, s, a);
            && Reachable(g, next) && Inv(g, next) && next.origin == s.origin
            && Measure(g, degree, s.origin.Keys, next) < Measure(g, degree, s.origin.Keys, s)
  {
    OriginSame(g, s, a);
    assert Inv(g, Step(g, s, a)) by {
      StepInv(g, s, a);
    }
    ReachableStep(g, s, a);
    assert Measure(g, degree, s.origin.Keys, Step(g, s, a)) < Measure(g, degree, s.origin.Keys, s) by {
      StepDecreases(g, degree, s.origin.Keys, s, a);
    }
  }

  lemma OriginSame(g: Graph, s: State, a: Action)
    requires ValidGraph(g) && s.seen.Keys == g.nodes && !a.Originate? && Enabled(g, s, a)
    ensures Step(g, s, a).origin == s.origin
  {
  }

  lemma SettleOnce(g: Graph, degree: nat, s: State) returns (next: State)
    requires ValidGraph(g) && DegreeBound(g, degree) && Reachable(g, s) && Inv(g, s) && |s.origin| <= MAX_SEEN
    requires !Quiescent(s)
    ensures Reachable(g, next) && Inv(g, next) && next.origin == s.origin
    ensures Measure(g, degree, s.origin.Keys, next) < Measure(g, degree, s.origin.Keys, s)
  {
    UnsettledCanMove(g, s);
    var a: Action :| !a.Originate? && Enabled(g, s, a);
    SettleStep(g, degree, s, a);
    next := Step(g, s, a);
  }

  /** A run with few enough messages can always be brought to rest. */
  lemma {:induction false} Settle(g: Graph, degree: nat, s: State) returns (s': State)
    requires ValidGraph(g) && DegreeBound(g, degree) && Reachable(g, s) && Inv(g, s) && |s.origin| <= MAX_SEEN
    ensures Reachable(g, s') && Quiescent(s') && s'.origin == s.origin
    decreases Measure(g, degree, s.origin.Keys, s)
  {
    if Quiescent(s) {
      s' := s;
    } else {
      var next := SettleOnce(g, degree, s);
      s' := Settle(g, degree, next);
    }
  }

  /** Every node the originator reaches has a full cache, without the message. */
  ghost predicate Full(g: Graph, s: State, from: Node, id: MsgId)
    requires ValidGraph(g)
  {
    && s.seen.Keys == g.nodes
    && forall n :: n in g.nodes && Reaches(g, from, n) ==> |s.seen[n]| == MAX_SEEN && id !in s.seen[n]
  }

  lemma FullCaches(g: Graph, from: Node) returns (s: State)
    requires ValidGraph(g) && from in g.nodes
    ensures Reachable(g, s) && Full(g, s, from, MAX_SEEN) && Quiescent(s)
    ensures |s.origin| == MAX_SEEN && MAX_SEEN !in s.origin
  {
    var sent := SendMany(g, from, MAX_SEEN);
    var degree := SomeDegree(g, g.nodes);
    ReachableInv(g, sent);
    s := Settle(g, degree, sent);
    ReachableInv(g, s);
    forall n | n in g.nodes && Reaches(g, from, n)
      ensures |s.seen[n]| == MAX_SEEN && MAX_SEEN !in s.seen[n]
    {
      AllSeen(g, s, from, n);
    }
  }

  lemma AllSeen(g: Graph, s: State, from: Node, n: Node)
    requires ValidGraph(g) && Inv(g, s) && Quiescent(s) && n in g.nodes && Reaches(g, from, n)
    requires forall id :: id in s.origin ==> s.origin[id] == from
    ensures s.seen[n] == s.origin.Keys
  {
    var path :| IsPath(g, path) && path[0] == from && path[|path| - 1] == n;
    forall id | id in s.origin ensures id in s.seen[n] {
      SeenAlongPath(g, s, path, id);
    }
  }

  // ---------------------------------------------------------------- a copy along a way

  /** What moving some copies of one message leaves alone. */
  ghost predicate Moved(g: Graph, s: State, s': State)
    requires ValidGraph(g)
  {
    Reachable(g, s') && s'.seen == s.seen && s'.origin == s.origin
  }

  /** A full cache forgets the id it has just admitted, so the copy is shown whatever came before. */
  lemma Arrive(g: Graph, s: State, from: Node, n: Node, id: MsgId) returns (s': State)
    requires ValidGraph(g) && Reachable(g, s) && Full(g, s, from, id) && n in g.nodes && Reaches(g, from, n)
    requires (n, id) in multiset(s.wire)
    ensures Moved(g, s, s') && s'.shown == s.shown
    ensures multiset(s'.wire) == multiset(s.wire) - multiset{(n, id)}
    ensures multiset(s'.tasks) == multiset(s.tasks) + multiset{Showing(n, id)}
  {
    assert (n, id) in s.wire;
    var i :| 0 <= i < |s.wire| && s.wire[i] == (n, id);
    var a := Deliver(i, id);
    ReachableStep(g, s, a);
    s' := Step(g, s, a);
    assert |s.seen[n] + {id}| == MAX_SEEN + 1;
    assert s.seen[n] + {id} - {id} == s.seen[n];
    assert s.seen[n := s.seen[n]] == s.seen;
    RemoveAtMultiset(s.wire, i);
  }

  lemma UpdateMultiset<T>(xs: seq<T>, i: nat, x: T)
    requires i < |xs|
    ensures multiset(xs[i := x]) == multiset(xs) - multiset{xs[i]} + multiset{x}
  {
  }

  lemma ShowOne(g: Graph, s: State, n: Node, id: MsgId) returns (s': State)
    requires ValidGraph(g) && Reachable(g, s) && s.seen.Keys == g.nodes && n in g.nodes
    requires Showing(n, id) in multiset(s.tasks)
    ensures Moved(g, s, s') && s'.wire == s.wire && s'.shown == s.shown + [(n, id)]
    ensures multiset(s'.tasks) == multiset(s.tasks) - multiset{Showing(n, id)} + multiset{Sending(n, id, g.links[n])}
  {
    assert Showing(n, id) in s.tasks;
    var t :| 0 <= t < |s.tasks| && s.tasks[t] == Showing(n, id);
    ReachableStep(g, s, Show(t));
    s' := Step(g, s, Show(t));
    UpdateMultiset(s.tasks, t, Sending(n, id, g.links[n]));
  }

  lemma SendOne(g: Graph, s: State, u: Node, id: MsgId, todo: seq<Node>) returns (s': State)
    requires ValidGraph(g) && Reachable(g, s) && s.seen.Keys == g.nodes
    requires Sending(u, id, todo) in multiset(s.tasks) && |todo| > 0
    ensures Moved(g, s, s') && s'.shown == s.shown
    ensures multiset(s'.tasks) == multiset(s.tasks) - multiset{Sending(u, id, todo)} + multiset{Sending(u, id, todo[1..])}
    ensures multiset(s'.wire) == multiset(s.wire) + if (u, todo[0]) in g.read then multiset{(todo[0], id)} else multiset{}
  {
    assert Sending(u, id, todo) in s.tasks;
    var t :| 0 <= t < |s.tasks| && s.tasks[t] == Sending(u, id, todo);
    ReachableStep(g, s, Send(t));
    s' := Step(g, s, Send(t));
    UpdateMultiset(s.tasks, t, Sending(u, id, todo[1..]));
  }

  lemma Exchanged<T>(a: multiset<T>, b: multiset<T>, c: multiset<T>, x: T, y: T)
    requires b == a - multiset{x} + multiset{y} && b - multiset{y} <= c
    ensures a - multiset{x} <= c
  {
    assert b - multiset{y} == a - multiset{x};
  }

  lemma {:induction false} SendAll(g: Graph, s: State, u: Node, id: MsgId, todo: seq<Node>) returns (s': State)
    requires ValidGraph(g) && Reachable(g, s) && s.seen.Keys == g.nodes
    requires Sending(u, id, todo) in multiset(s.tasks)
    ensures Moved(g, s, s') && s'.shown == s.shown
    ensures multiset(s.tasks) - multiset{Sending(u, id, todo)} <= multiset(s'.tasks)
    ensures multiset(s'.wire) == multiset(s.wire) + Sends(g, u, id, todo)
    decreases |todo|
  {
    if |todo| == 0 {
      s' := s;
    } else {
      var next := SendOne(g, s, u, id, todo);
      s' := SendAll(g, next, u, id, todo[1..]);
      Exchanged(multiset(s.tasks), multiset(next.tasks), multiset(s'.tasks), Sending(u, id, todo), Sending(u, id, todo[1..]));
    }
  }

  /** A node shows a message and puts a copy for every link on the wire. */
  lemma Broadcast(g: Graph, s: State, u: Node, id: MsgId) returns (s': State)
    requires ValidGraph(g) && Reachable(g, s) && s.seen.Keys == g.nodes && u in g.nodes
    requires Showing(u, id) in multiset(s.tasks)
    ensures Moved(g, s, s') && s'.shown == s.shown + [(u, id)]
    ensures multiset(s.tasks) - multiset{Showing(u, id)} <= multiset(s'.tasks)
    ensures multiset(s'.wire) == multiset(s.wire) + Sends(g, u, id, g.links[u])
  {
    var shown := ShowOne(g, s, u, id);
    s' := SendAll(g, shown, u, id, g.links[u]);
  }

  lemma HopReaches(g: Graph, from: Node, u: Node, i: nat)
    requires ValidGraph(g) && u in g.nodes && Reaches(g, from, u) && Hop(g, u, i).Some?
    ensures Reaches(g, from, Hop(g, u, i).value)
  {
    assert Edge(g, u, g.links[u][i]);
    ReachesStep(g, from, u, g.links[u][i]);
  }

  /** The copy at hand is shown, sent on over the i-th link and admitted there. */
  lemma Advance(g: Graph, s: State, from: Node, u: Node, id: MsgId, i: nat) returns (s': State)
    requires ValidGraph(g) && Reachable(g, s) && Full(g, s, from, id) && u in g.nodes && Reaches(g, from, u)
    requires Showing(u, id) in multiset(s.tasks) && Hop(g, u, i).Some?
    ensures Moved(g, s, s') && s'.shown == s.shown + [(u, id)]
    ensures multiset(s.wire) <= multiset(s'.wire)
    ensures Showing(Hop(g, u, i).value, id) in multiset(s'.tasks)
  {
    var sent := Broadcast(g, s, u, id);
    SendsHas(g, u, id, g.links[u], i);
    HopReaches(g, from, u, i);
    s' := Arrive(g, sent, from, g.links[u][i], id);
  }

  /** With full caches a copy follows any way to its end, and every node it passes shows it. */
  lemma {:induction false} Carry(g: Graph, s: State, from: Node, u: Node, id: MsgId, way: seq<nat>) returns (s': State)
    requires ValidGraph(g) && Reachable(g, s) && Full(g, s, from, id) && u in g.nodes && Reaches(g, from, u)
    requires Showing(u, id) in multiset(s.tasks) && End(g, u, way).Some?
    ensures Moved(g, s, s') && multiset(s.wire) <= multiset(s'.wire)
    ensures multiset(s.shown) + multiset{(End(g, u, way).value, id)} <= multiset(s'.shown)
    ensures |way| > 0 ==> multiset(s.shown) + multiset{(u, id), (End(g, u, way).value, id)} <= multiset(s'.shown)
    decreases |way|
  {
    if |way| == 0 {
      s' := ShowOne(g, s, u, id);
    } else {
      var next := Advance(g, s, from, u, id, way[0]);
      HopReaches(g, from, u, way[0]);
      s' := Carry(g, next, from, Hop(g, u, way[0]).value, id, way[1..]);
    }
  }

  /** From a fork both copies go their ways. */
  lemma Fork(g: Graph, s: State, from: Node, u: Node, id: MsgId, a: seq<nat>, b: seq<nat>, n: Node) returns (s': State)
    requires ValidGraph(g) && Reachable(g, s) && Full(g, s, from, id) && u in g.nodes && Reaches(g, from, u)
    requires Showing(u, id) in multiset(s.tasks)
    requires |a| > 0 && |b| > 0 && a[0] < b[0] && End(g, u, a) == Some(n) && End(g, u, b) == Some(n)
    ensures Moved(g, s, s') && multiset(s'.shown)[(n, id)] >= 2
  {
    var v, w := Hop(g, u, a[0]).value, Hop(g, u, b[0]).value;
    HopReaches(g, from, u, a[0]);
    HopReaches(g, from, u, b[0]);
    var sent := Broadcast(g, s, u, id);
    SendsHasBoth(g, u, id, g.links[u], a[0], b[0]);
    var first := Arrive(g, sent, from, v, id);
    var carried := Carry(g, first, from, v, id, a[1..]);
    var second := Arrive(g, carried, from, w, id);
    s' := Carry(g, second, from, w, id, b[1..]);
  }

  /** Two different ways from a node that is about to show the message. */
  lemma {:induction false} BothWays(g: Graph, s: State, from: Node, u: Node, id: MsgId, a: seq<nat>, b: seq<nat>, n: Node) returns (s': State)
    requires ValidGraph(g) && Reachable(g, s) && Full(g, s, from, id) && u in g.nodes && Reaches(g, from, u)
    requires Showing(u, id) in multiset(s.tasks)
    requires a != b && End(g, u, a) == Some(n) && End(g, u, b) == Some(n)
    ensures Moved(g, s, s') && multiset(s'.shown)[(n, id)] >= 2
    decreases |a|
  {
    if |a| == 0 {
      s' := Carry(g, s, from, u, id, b);
    } else if |b| == 0 {
      s' := Carry(g, s, from, u, id, a);
    } else if a[0] < b[0] {
      s' := Fork(g, s, from, u, id, a, b, n);
    } else if b[0] < a[0] {
      s' := Fork(g, s, from, u, id, b, a, n);
    } else {
      var next := Advance(g, s, from, u, id, a[0]);
      HopReaches(g, from, u, a[0]);
      assert a == [a[0]] + a[1..] && b == [b[0]] + b[1..];
      s' := BothWays(g, next, from, Hop(g, u, a[0]).value, id, a[1..], b[1..], n);
    }
  }

  // ---------------------------------------------------------------- exactly when a message is shown twice

  /** A run over at most `limit` messages in which n shows a message of `from` more than once. */
  ghost predicate SomeRunRepeats(g: Graph, from: Node, n: Node, limit: nat)
    requires ValidGraph(g)
  {
    exists acts, id :: Repeats(g, acts, from, n, id, limit)
  }

  ghost predicate Repeats(g: Graph, acts: seq<Action>, from: Node, n: Node, id: MsgId, limit: nat)
    requires ValidGraph(g)
  {
    && After(g, acts).Some?
    && var s := After(g, acts).value;
      |s.origin| <= limit && id in s.origin && s.origin[id] == from && multiset(s.shown)[(n, id)] >= 2
  }

  /** One message more than a cache holds is enough wherever two ways lead. */
  lemma RepeatReached(g: Graph, from: Node, n: Node) returns (s: State)
    requires ValidGraph(g) && from in g.nodes && TwoWays(g, from, n)
    ensures Reachable(g, s) && |s.origin| == MAX_SEEN + 1
    ensures MAX_SEEN in s.origin && s.origin[MAX_SEEN] == from && multiset(s.shown)[(n, MAX_SEEN)] >= 2
  {
    var id := MAX_SEEN;
    var a, b :| a != b && End(g, from, a) == Some(n) && End(g, from, b) == Some(n);
    var full := FullCaches(g, from);
    ReachesSelf(g, from);
    var start := Originate(from, id, id);
    ReachableStep(g, full, start);
    var sent := Step(g, full, start);
    SentFull(g, full, from, id);
    assert sent.tasks == [Showing(from, id)];
    s := BothWays(g, sent, from, from, id, a, b, n);
  }

  lemma SentFull(g: Graph, s: State, from: Node, id: MsgId)
    requires ValidGraph(g) && Full(g, s, from, id) && from in g.nodes && Reaches(g, from, from) && id !in s.origin
    ensures var a := Originate(from, id, id);
            Enabled(g, s, a) && Full(g, Step(g, s, a), from, id) && |Step(g, s, a).origin| == |s.origin| + 1
  {
    assert |s.seen[from] + {id}| == MAX_SEEN + 1;
    assert s.seen[from] + {id} - {id} == s.seen[from];
    assert s.origin[id := from].Keys == s.origin.Keys + {id};
  }

  /** Some run over at most `limit` messages shows a message of `from` twice at n if and only if the
      limit is more than a cache holds and copies can reach n from there in two ways. */
  lemma ShownTwiceExactly(g: Graph, from: Node, n: Node, limit: nat)
    requires ValidGraph(g) && from in g.nodes && n in g.nodes
    ensures SomeRunRepeats(g, from, n, limit) <==> limit > MAX_SEEN && TwoWays(g, from, n)
  {
    if SomeRunRepeats(g, from, n, limit) {
      var acts, id :| Repeats(g, acts, from, n, id, limit);
      if limit <= MAX_SEEN {
        ShownAtMostOnce(g, acts, n, id);
        assert false;
      }
      if !TwoWays(g, from, n) {
        OneWayShowsOnce(g, acts, n, id);
        assert false;
      }
    }
    if limit > MAX_SEEN && TwoWays(g, from, n) {
      var s := RepeatReached(g, from, n);
      var acts :| After(g, acts) == Some(s);
      assert Repeats(g, acts, from, n, MAX_SEEN, limit);
    }
  }
}
