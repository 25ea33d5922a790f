/** What every run of the chat flood does: it shows a message at most once per node, it ends, and it
    reaches exactly the nodes it can (backend/api/routes.py:854-937, backend/network/connection.py). */
module GossipRuns {
  import opened Seqs
  import opened Gossip

  lemma OriginGrows(g: Graph, s: State, a: Action)
    requires ValidGraph(g) && s.seen.Keys == g.nodes && Enabled(g, s, a)
    ensures |s.origin| <= |Step(g, s, a).origin|
  {
    if a.Originate? {
      assert s.origin[a.id := a.node].Keys == s.origin.Keys + {a.id};
    }
  }

  lemma {:induction false} RunInv(g: Graph, acts: seq<Action>)
    requires ValidGraph(g) && After(g, acts).Some? && |After(g, acts).value.origin| <= MAX_SEEN
    ensures Inv(g, After(g, acts).value)
  {
    if |acts| > 0 {
      var last := |acts| - 1;
      var s := After(g, acts[..last]).value;
      OriginGrows(g, s, acts[last]);
      RunInv(g, acts[..last]);
      StepInv(g, s, acts[last]);
    }
  }

  /** In every run with at most MAX_SEEN messages, no node shows a message twice. */
  lemma ShownAtMostOnce(g: Graph, acts: seq<Action>, n: Node, id: MsgId)
    requires ValidGraph(g) && After(g, acts).Some? && |After(g, acts).value.origin| <= MAX_SEEN
    requires n in g.nodes
    ensures multiset(After(g, acts).value.shown)[(n, id)] <= 1
  {
    RunInv(g, acts);
    assert B(id in After(g, acts).value.seen[n]) <= 1;
  }

  // ---------------------------------------------------------------- delivery

  lemma {:induction false} SeenAlongPath(g: Graph, s: State, path: seq<Node>, id: MsgId)
    requires ValidGraph(g) && Inv(g, s) && Quiescent(s)
    requires IsPath(g, path) && id in s.seen[path[0]]
    ensures path[|path| - 1] in s.seen && id in s.seen[path[|path| - 1]]
    decreases |path|
  {
    if |path| > 1 {
      var v := path[1];
      assert Edge(g, path[0], path[1]);
      assert Promised(s, path[0], v, id);
      var rest := path[1..];
      assert forall i :: 0 <= i < |rest| - 1 ==> Edge(g, rest[i], rest[i + 1]) by {
        forall i | 0 <= i < |rest| - 1 ensures Edge(g, rest[i], rest[i + 1]) {
          assert Edge(g, path[i + 1], path[i + 2]);
        }
      }
      SeenAlongPath(g, s, rest, id);
    }
  }

  /** Once a run has settled, every node reachable from the originator over links that are read has
      shown the message exactly once, and no other node has shown it. */
  lemma DeliveredExactlyToReachable(g: Graph, acts: seq<Action>, id: MsgId, n: Node)
    requires ValidGraph(g) && After(g, acts).Some? && |After(g, acts).value.origin| <= MAX_SEEN
    requires Quiescent(After(g, acts).value)
    requires id in After(g, acts).value.origin && n in g.nodes
    ensures var s := After(g, acts).value;
            multiset(s.shown)[(n, id)] == B(Reaches(g, s.origin[id], n))
  {
    var s := After(g, acts).value;
    RunInv(g, acts);
    var from := s.origin[id];
    if Reaches(g, from, n) {
      var path :| IsPath(g, path) && path[0] == from && path[|path| - 1] == n;
      SeenAlongPath(g, s, path, id);
    }
    assert id in s.seen[n] ==> KnownFrom(g, s, n, id);
    assert multiset(s.tasks)[Showing(n, id)] == 0;
  }

  // ---------------------------------------------------------------- termination

  function TaskWork(degree: nat, task: Task): nat {
    match task
    case Showing(_, _) => 2 * degree + 2
    case Sending(_, _, todo) => 2 * |todo| + 1
  }

  function TotalWork(degree: nat, tasks: seq<Task>): nat {
    if |tasks| == 0 then 0 else TaskWork(degree, tasks[0]) + TotalWork(degree, tasks[1..])
  }

  lemma {:induction false} WorkAppend(degree: nat, tasks: seq<Task>, task: Task)
    ensures TotalWork(degree, tasks + [task]) == TotalWork(degree, tasks) + TaskWork(degree, task)
  {
    if |tasks| == 0 {
      assert tasks + [task] == [task];
      assert [task][1..] == [];
    } else {
      WorkAppend(degree, tasks[1..], task);
      assert (tasks + [task])[1..] == tasks[1..] + [task];
    }
  }

  lemma {:induction false} WorkUpdate(degree: nat, tasks: seq<Task>, t: nat, task: Task)
    requires t < |tasks|
    ensures TotalWork(degree, tasks[t := task]) + TaskWork(degree, tasks[t]) == TotalWork(degree, tasks) + TaskWork(degree, task)
  {
    if t == 0 {
      assert tasks[t := task][1..] == tasks[1..];
    } else {
      WorkUpdate(degree, tasks[1..], t - 1, task);
      assert tasks[t := task][1..] == tasks[1..][t - 1 := task];
    }
  }

  lemma {:induction false} WorkRemove(degree: nat, tasks: seq<Task>, t: nat)
    requires t < |tasks|
    ensures TotalWork(degree, RemoveAt(tasks, t)) + TaskWork(degree, tasks[t]) == TotalWork(degree, tasks)
  {
    if t == 0 {
      assert RemoveAt(tasks, 0) == tasks[1..];
    } else {
      WorkRemove(degree, tasks[1..], t - 1);
      assert RemoveAt(tasks, t)[1..] == RemoveAt(tasks[1..], t - 1);
      assert RemoveAt(tasks, t)[0] == tasks[0];
    }
  }

  /** The (node, id) pairs that have still to be seen. */
  ghost function Unseen(g: Graph, ids: set<MsgId>, s: State): set<(Node, MsgId)>
    requires s.seen.Keys == g.nodes
  {
    set n, id | n in g.nodes && id in ids && id !in s.seen[n] :: (n, id)
  }

  ghost predicate DegreeBound(g: Graph, degree: nat)
    requires ValidGraph(g)
  {
    forall u :: u in g.nodes ==> |g.links[u]| <= degree
  }

  /** What a run over the messages `ids` can still do. */
  ghost function Measure(g: Graph, degree: nat, ids: set<MsgId>, s: State): nat
    requires s.seen.Keys == g.nodes
  {
    |Unseen(g, ids, s)| * (2 * degree + 4) + TotalWork(degree, s.tasks) + |s.wire|
  }

  lemma OnePairLess(g: Graph, ids: set<MsgId>, s: State, s': State, n: Node, id: MsgId)
    requires s.seen.Keys == g.nodes && n in g.nodes && id in ids && id !in s.seen[n]
    requires s'.seen == s.seen[n := s.seen[n] + {id}]
    ensures |Unseen(g, ids, s')| == |Unseen(g, ids, s)| - 1
  {
    assert (n, id) in Unseen(g, ids, s);
    assert Unseen(g, ids, s') == Unseen(g, ids, s) - {(n, id)};
  }

  lemma OriginateDecreases(g: Graph, degree: nat, ids: set<MsgId>, s: State, a: Action)
    requires ValidGraph(g) && s.seen.Keys == g.nodes && SeenOriginated(s)
    requires a.Originate? && Enabled(g, s, a) && a.id in ids
    requires |Step(g, s, a).origin| <= MAX_SEEN
    ensures Measure(g, degree, ids, Step(g, s, a)) < Measure(g, degree, ids, s)
  {
    var s' := Step(g, s, a);
    SeenAfterOriginate(g, s, a);
    assert a.id !in s.seen[a.node];
    OnePairLess(g, ids, s, s', a.node, a.id);
    WorkAppend(degree, s.tasks, Showing(a.node, a.id));
    LessByOne(|Unseen(g, ids, s)|, |Unseen(g, ids, s')|, 2 * degree + 4);
  }

  lemma DeliverDecreases(g: Graph, degree: nat, ids: set<MsgId>, s: State, a: Action)
    requires ValidGraph(g) && s.seen.Keys == g.nodes && SeenOriginated(s)
    requires a.Deliver? && Enabled(g, s, a) && s.wire[a.copy].1 in s.origin
    requires |s.origin| <= MAX_SEEN && s.origin.Keys <= ids
    ensures Measure(g, degree, ids, Step(g, s, a)) < Measure(g, degree, ids, s)
  {
    var s' := Step(g, s, a);
    var (n, id) := s.wire[a.copy];
    if id !in s.seen[n] {
      SeenAfterDeliver(g, s, a);
      OnePairLess(g, ids, s, s', n, id);
      WorkAppend(degree, s.tasks, Showing(n, id));
      LessByOne(|Unseen(g, ids, s)|, |Unseen(g, ids, s')|, 2 * degree + 4);
    }
  }

  lemma LessByOne(a: nat, b: nat, w: nat)
    requires b == a - 1
    ensures b * w == a * w - w
  {
  }

  lemma HandlerDecreases(g: Graph, degree: nat, ids: set<MsgId>, s: State, a: Action)
    requires ValidGraph(g) && WellFormed(g, s) && Enabled(g, s, a) && DegreeBound(g, degree)
    requires a.Show? || a.Send?
    ensures Measure(g, degree, ids, Step(g, s, a)) < Measure(g, degree, ids, s)
  {
    var s' := Step(g, s, a);
    assert Unseen(g, ids, s') == Unseen(g, ids, s);
    var task := s.tasks[a.task];
    if a.Send? && |task.todo| == 0 {
      WorkRemove(degree, s.tasks, a.task);
    } else {
      WorkUpdate(degree, s.tasks, a.task, s'.tasks[a.task]);
    }
  }

  /** Every step uses up some of the measure, so a run over finitely many messages ends, after at
      most the initial measure many steps. */
  lemma {:induction false} RunsTerminate(g: Graph, degree: nat, ids: set<MsgId>, acts: seq<Action>)
    requires ValidGraph(g) && DegreeBound(g, degree) && |ids| <= MAX_SEEN
    requires After(g, acts).Some? && After(g, acts).value.origin.Keys <= ids
    ensures |acts| + Measure(g, degree, ids, After(g, acts).value) <= Measure(g, degree, ids, Init(g))
  {
    if |acts| > 0 {
      LastStepDecreases(g, degree, ids, acts);
      RunsTerminate(g, degree, ids, acts[..|acts| - 1]);
    }
  }

  lemma LastStepDecreases(g: Graph, degree: nat, ids: set<MsgId>, acts: seq<Action>)
    requires ValidGraph(g) && DegreeBound(g, degree) && |ids| <= MAX_SEEN
    requires |acts| > 0 && After(g, acts).Some? && After(g, acts).value.origin.Keys <= ids
    ensures var before := After(g, acts[..|acts| - 1]);
            && before.Some? && before.value.origin.Keys <= ids
            && 1 + Measure(g, degree, ids, After(g, acts).value) <= Measure(g, degree, ids, before.value)
  {
    var last := |acts| - 1;
    var s := After(g, acts[..last]).value;
    OriginKept(g, s, acts[last]);
    SubsetSize(After(g, acts).value.origin.Keys, ids);
    SubsetSize(s.origin.Keys, After(g, acts).value.origin.Keys);
    assert Inv(g, s) by {
      RunInv(g, acts[..last]);
    }
    StepDecreases(g, degree, ids, s, acts[last]);
  }

  lemma OriginKept(g: Graph, s: State, a: Action)
    requires ValidGraph(g) && s.seen.Keys == g.nodes && Enabled(g, s, a)
    ensures s.origin.Keys <= Step(g, s, a).origin.Keys
  {
  }

  lemma StepDecreases(g: Graph, degree: nat, ids: set<MsgId>, s: State, a: Action)
    requires ValidGraph(g) && DegreeBound(g, degree) && Inv(g, s) && Enabled(g, s, a)
    requires Step(g, s, a).origin.Keys <= ids && s.origin.Keys <= ids && |Step(g, s, a).origin| <= MAX_SEEN
    ensures 1 + Measure(g, degree, ids, Step(g, s, a)) <= Measure(g, degree, ids, s)
  {
    if a.Originate? {
      OriginateDecreases(g, degree, ids, s, a);
    } else if a.Deliver? {
      assert KnownFrom(g, s, s.wire[a.copy].0, s.wire[a.copy].1);
      DeliverDecreases(g, degree, ids, s, a);
    } else {
      HandlerDecreases(g, degree, ids, s, a);
    }
  }

  /** A state that is not settled always has a step besides originating, so runs end settled. */
  lemma UnsettledCanMove(g: Graph, s: State)
    requires ValidGraph(g) && Inv(g, s) && !Quiescent(s)
    ensures exists a: Action :: !a.Originate? && Enabled(g, s, a)
  {
    if |s.wire| > 0 {
      var a := Deliver(0, s.wire[0].1);
      assert Enabled(g, s, a);
    } else if s.tasks[0].Showing? {
      var a := Show(0);
      assert TaskFits(g, s.tasks[0]);
      assert Enabled(g, s, a);
    } else {
      var a := Send(0);
      assert Enabled(g, s, a);
    }
  }
}
