/** The resumable download manager (backend/api/download_manager.py), for one file.

    A step is one uninterrupted stretch of code: a control call up to its first await, or a worker
    from one await to the next. Workers and pause calls keep the DownloadState object they were given,
    also when the manager has since replaced it, so objects have identities (`objs`). */
module Download {
  import opened Seqs

  const FLUSH_INTERVAL: nat := 10

  datatype Status = Downloading | Finalizing | Paused | Completed | Error

  /** A DownloadState; `output` is the digest of the merged file, which a .resume file does not keep. */
  datatype Record = Record(missing: seq<nat>, completed: seq<nat>, status: Status, output: Option<string>)

  /** Created: not run yet. Head: between two chunks. Fetching: awaiting a chunk. Merging: awaiting the
      final merge. */
  datatype Pc = Created | Head | Fetching(index: nat) | Merging | Ended

  /** `todo` is what the loop has still to visit, `since` counts chunks since the last flush, `stop` is
      the cancel event and `cancel` a requested task cancellation. */
  datatype Worker = Worker(obj: nat, todo: seq<nat>, since: nat, pc: Pc, stop: bool, cancel: bool)

  /** A pause call that waits for a worker to wind down. */
  datatype Waiting = Waiting(obj: nat, worker: nat)

  datatype Manifest = Manifest(total: nat, fileHash: string)

  datatype State = State(
    objs: seq<Record>,
    cur: Option<nat>,
    disk: Option<Record>,
    workers: seq<Worker>,
    pauses: seq<Waiting>,
    task: Option<nat>,
    event: Option<nat>,
    store: set<nat>)

  datatype Action =
    | Start
    | Resume(hasManifest: bool)
    | Pause
    | PauseTimeout(p: nat)
    | PauseWake(p: nat)
    | Clear
    | ClearFinished
    | Crash
    | Run(w: nat)
    | FetchOk(w: nat)
    | FetchFails(w: nat)
    | Merged(w: nat, digest: string)
    | MergeFails(w: nat)
    | Cancelled(w: nat)
    | Evict(index: nat)

  const Fresh := State([], None, None, [], [], None, None, {})

  // ---------------------------------------------------------------- records

  function Indices(n: nat): seq<nat> {
    seq(n, i => i)
  }

  function NewRecord(m: Manifest): Record {
    Record(Indices(m.total), [], Downloading, None)
  }

  function Persisted(r: Record): Record {
    r.(output := None)
  }

  /** `list.remove`: the first occurrence goes. */
  function RemoveFirst(s: seq<nat>, x: nat): seq<nat> {
    if |s| == 0 then [] else if s[0] == x then s[1..] else [s[0]] + RemoveFirst(s[1..], x)
  }

  /** A fetched chunk leaves the missing list and joins the completed list. */
  function Marked(r: Record, i: nat): Record {
    r.(missing := if i in r.missing then RemoveFirst(r.missing, i) else r.missing,
       completed := if i in r.completed then r.completed else r.completed + [i])
  }

  /** The indices of the manifest that are missing, in manifest order. */
  function Todo(n: nat, missing: seq<nat>): seq<nat> {
    if n == 0 then [] else Todo(n - 1, missing) + (if n - 1 in missing then [n - 1] else [])
  }

  // ---------------------------------------------------------------- steps

  predicate Live(w: Worker) {
    !w.pc.Ended?
  }

  predicate WellIndexed(s: State) {
    && (s.cur.Some? ==> s.cur.value < |s.objs|)
    && (forall k :: 0 <= k < |s.workers| ==> s.workers[k].obj < |s.objs|)
    && (forall k :: 0 <= k < |s.pauses| ==> s.pauses[k].obj < |s.objs| && s.pauses[k].worker < |s.workers|)
    && (s.task.Some? ==> s.task.value < |s.workers|)
    && (s.event.Some? ==> s.event.value < |s.workers|)
  }

  predicate CanMove(s: State, w: nat) {
    w < |s.workers| && !s.workers[w].cancel
  }

  predicate Enabled(s: State, a: Action) {
    match a
    case PauseTimeout(p) => p < |s.pauses|
    case PauseWake(p) => p < |s.pauses| && s.pauses[p].worker < |s.workers| && !Live(s.workers[s.pauses[p].worker])
    case Run(w) => CanMove(s, w) && (s.workers[w].pc.Created? || s.workers[w].pc.Head?)
    case FetchOk(w) => CanMove(s, w) && s.workers[w].pc.Fetching?
    case FetchFails(w) => CanMove(s, w) && s.workers[w].pc.Fetching?
    case Merged(w, _) => CanMove(s, w) && s.workers[w].pc.Merging?
    case MergeFails(w) => CanMove(s, w) && s.workers[w].pc.Merging?
    case Cancelled(w) => w < |s.workers| && s.workers[w].cancel && Live(s.workers[w])
    case _ => true
  }

  function Save(s: State, o: nat): (s': State)
    requires o < |s.objs|
  {
    s.(disk := Some(Persisted(s.objs[o])))
  }

  function SetStatus(s: State, o: nat, status: Status): (s': State)
    requires o < |s.objs|
  {
    s.(objs := s.objs[o := s.objs[o].(status := status)])
  }

  function SetWorker(s: State, w: nat, worker: Worker): (s': State)
    requires w < |s.workers|
  {
    s.(workers := s.workers[w := worker])
  }

  function Spawn(s: State, o: nat): State {
    s.(cur := Some(o),
       workers := s.workers + [Worker(o, [], 0, Created, false, false)],
       task := Some(|s.workers|),
       event := Some(|s.workers|))
  }

  /** `self._downloads.get(..) or self._load_resume(..)`: the tracked object, or one read from disk. */
  function Existing(s: State): (State, Option<nat>) {
    if s.cur.Some? then (s, s.cur)
    else if s.disk.Some? then (s.(objs := s.objs + [s.disk.value]), Some(|s.objs|))
    else (s, None)
  }

  function StartDownload(m: Manifest, s: State): (s': State)
    requires WellIndexed(s)
    ensures WellIndexed(s')
  {
    var (s1, found) := Existing(s);
    if found.Some? && (s1.objs[found.value].status.Downloading? || s1.objs[found.value].status.Completed?) then s1
    else if found.Some? && |s1.objs[found.value].missing| > 0 then
      Spawn(Save(SetStatus(s1, found.value, Downloading), found.value), found.value)
    else
      var s2 := s1.(objs := s1.objs + [NewRecord(m)]);
      Spawn(Save(s2, |s1.objs|), |s1.objs|)
  }

  function ResumeDownload(s: State, hasManifest: bool): (s': State)
    requires WellIndexed(s)
    ensures WellIndexed(s')
  {
    var (s1, found) := Existing(s);
    if found.None? || s1.objs[found.value].status.Downloading? || s1.objs[found.value].status.Completed? || !hasManifest
    then s1
    else Spawn(SetStatus(s1, found.value, Downloading), found.value)
  }

  /** The tail of pause_download, once the worker is known to have ended. */
  function FinishPause(s: State, o: nat): (s': State)
    requires o < |s.objs|
  {
    Save(SetStatus(s, o, Paused), o).(task := None, event := None)
  }

  function PauseDownload(s: State): (s': State)
    requires WellIndexed(s)
    ensures WellIndexed(s')
  {
    if s.cur.None? || !s.objs[s.cur.value].status.Downloading? then s
    else
      var s1 := if s.event.Some? then SetWorker(s, s.event.value, s.workers[s.event.value].(stop := true)) else s;
      if s1.task.Some? && Live(s1.workers[s1.task.value]) then
        s1.(pauses := s1.pauses + [Waiting(s.cur.value, s1.task.value)])
      else FinishPause(s1, s.cur.value)
  }

  /** The worker from its start or from a loop head to its next await or its end. */
  function RunWorker(m: Manifest, s: State, w: nat): (s': State)
    requires WellIndexed(s) && Enabled(s, Run(w))
    ensures WellIndexed(s')
  {
    var me := s.workers[w];
    var todo := if me.pc.Created? then Todo(m.total, s.objs[me.obj].missing) else me.todo;
    if |todo| == 0 then
      SetWorker(Save(SetStatus(s, me.obj, Finalizing), me.obj), w, me.(todo := todo, pc := Merging))
    else if me.stop then SetWorker(s, w, me.(todo := todo, pc := Ended))
    else SetWorker(s, w, me.(todo := todo[1..], pc := Fetching(todo[0])))
  }

  function Fetched(s: State, w: nat): (s': State)
    requires WellIndexed(s) && Enabled(s, FetchOk(w))
    ensures WellIndexed(s')
  {
    var me := s.workers[w];
    var i := me.pc.index;
    var s1 := s.(store := s.store + {i}, objs := s.objs[me.obj := Marked(s.objs[me.obj], i)]);
    if me.since + 1 >= FLUSH_INTERVAL then SetWorker(Save(s1, me.obj), w, me.(since := 0, pc := Head))
    else SetWorker(s1, w, me.(since := me.since + 1, pc := Head))
  }

  /** A worker ends with its state saved: `Error` after a failed fetch is saved before it is set. */
  function EndWith(s: State, w: nat, status: Status, saveFirst: bool): (s': State)
    requires WellIndexed(s) && w < |s.workers|
    ensures WellIndexed(s')
  {
    var me := s.workers[w];
    var s1 := if saveFirst then SetStatus(Save(s, me.obj), me.obj, status) else Save(SetStatus(s, me.obj, status), me.obj);
    SetWorker(s1, w, me.(pc := Ended))
  }

  function MergeDone(m: Manifest, s: State, w: nat, digest: string): (s': State)
    requires WellIndexed(s) && Enabled(s, Merged(w, digest))
    ensures WellIndexed(s')
  {
    if digest != m.fileHash then EndWith(s, w, Error, false)
    else
      var o := s.workers[w].obj;
      EndWith(s.(objs := s.objs[o := s.objs[o].(output := Some(digest))]), w, Completed, false)
  }

  function Forget(s: State): State {
    s.(cur := None, disk := None, task := None, event := None)
  }

  function Recovered(s: State): State {
    if s.disk.Some? then
      State([s.disk.value.(status := Paused)], Some(0), s.disk, [], [], None, None, s.store)
    else State([], None, None, [], [], None, None, s.store)
  }

  function Step(m: Manifest, s: State, a: Action): (s': State)
    requires WellIndexed(s) && Enabled(s, a)
    ensures WellIndexed(s')
  {
    match a
    case Start => StartDownload(m, s)
    case Resume(hasManifest) => ResumeDownload(s, hasManifest)
    case Pause => PauseDownload(s)
    case PauseTimeout(p) =>
      var w := s.pauses[p].worker;
      SetWorker(s, w, s.workers[w].(cancel := s.workers[w].cancel || Live(s.workers[w])))
    case PauseWake(p) => FinishPause(s, s.pauses[p].obj).(pauses := RemoveAt(s.pauses, p))
    case Clear => if s.cur.Some? then Forget(s) else s
    case ClearFinished =>
      if s.cur.Some? && (s.objs[s.cur.value].status.Completed? || s.objs[s.cur.value].status.Error?) then Forget(s) else s
    case Crash => Recovered(s)
    case Run(w) => RunWorker(m, s, w)
    case FetchOk(w) => Fetched(s, w)
    case FetchFails(w) => EndWith(s, w, Error, true)
    case Merged(w, digest) => MergeDone(m, s, w, digest)
    case MergeFails(w) => EndWith(s, w, Error, false)
    case Cancelled(w) =>
      if s.workers[w].pc.Created? then SetWorker(s, w, s.workers[w].(pc := Ended))
      else EndWith(s, w, Paused, false)
    case Evict(i) => s.(store := s.store - {i})
  }

  /** The state after a run, or None when some action was not enabled. */
  ghost function After(m: Manifest, s: State, acts: seq<Action>): (r: Option<State>)
    requires WellIndexed(s)
    ensures r.Some? ==> WellIndexed(r.value)
    decreases |acts|
  {
    if |acts| == 0 then Some(s)
    else if Enabled(s, acts[0]) then After(m, Step(m, s, acts[0]), acts[1..])
    else None
  }

  // ---------------------------------------------------------------- invariant of every run

  /** The missing and the completed list partition 0..n-1, each without repetition. */
  ghost predicate Partition(n: nat, r: Record) {
    && Distinct(r.missing) && Distinct(r.completed)
    && (forall i :: i in r.missing ==> i < n && i !in r.completed)
    && (forall i :: i in r.completed ==> i < n)
    && (forall i :: 0 <= i < n ==> i in r.missing || i in r.completed)
  }

  ghost predicate RecordOk(m: Manifest, r: Record) {
    Partition(m.total, r) && (r.status.Completed? ==> r.missing == [])
  }

  /** What a worker has still to visit covers what its record still misses. */
  ghost predicate Covers(m: Manifest, r: Record, w: Worker) {
    match w.pc
    case Created => true
    case Head => forall i :: i in r.missing ==> i in w.todo
    case Fetching(j) => j < m.total && forall i :: i in r.missing ==> i == j || i in w.todo
    case Merging => r.missing == []
    case Ended => true
  }

  ghost predicate TodoInRange(m: Manifest, w: Worker) {
    forall i :: i in w.todo ==> i < m.total
  }

  ghost predicate WorkersOk(m: Manifest, s: State)
    requires WellIndexed(s)
  {
    forall k :: 0 <= k < |s.workers| ==> TodoInRange(m, s.workers[k]) && Covers(m, s.objs[s.workers[k].obj], s.workers[k])
  }

  ghost predicate CurrentOk(m: Manifest, s: State)
    requires WellIndexed(s)
  {
    s.cur.Some? && s.objs[s.cur.value].status.Completed? ==> s.objs[s.cur.value].output == Some(m.fileHash)
  }

  ghost predicate Inv(m: Manifest, s: State) {
    && WellIndexed(s)
    && (forall o :: 0 <= o < |s.objs| ==> RecordOk(m, s.objs[o]))
    && (s.disk.Some? ==> RecordOk(m, s.disk.value))
    && WorkersOk(m, s)
    && CurrentOk(m, s)
  }

  // ---- records

  lemma {:induction false} RemoveFirstSpec(s: seq<nat>, x: nat)
    requires Distinct(s) && x in s
    ensures Distinct(RemoveFirst(s, x))
    ensures forall i :: i in RemoveFirst(s, x) <==> i in s && i != x
    ensures |RemoveFirst(s, x)| == |s| - 1
  {
    if s[0] != x {
      assert s == [s[0]] + s[1..];
      RemoveFirstSpec(s[1..], x);
      assert s[0] !in s[1..];
    } else {
      assert s == [x] + s[1..];
      assert x !in s[1..];
    }
  }

  lemma MarkedSpec(n: nat, r: Record, i: nat)
    requires Partition(n, r) && i < n
    ensures Partition(n, Marked(r, i))
    ensures forall j :: j in Marked(r, i).missing <==> j in r.missing && j != i
    ensures forall j :: j in Marked(r, i).completed <==> j in r.completed || j == i
  {
    if i in r.missing {
      RemoveFirstSpec(r.missing, i);
    }
  }

  lemma {:induction false} TodoSpec(n: nat, missing: seq<nat>)
    ensures forall i :: i in Todo(n, missing) <==> i < n && i in missing
  {
    if n > 0 {
      TodoSpec(n - 1, missing);
    }
  }

  lemma IndicesSpec(m: Manifest)
    ensures RecordOk(m, NewRecord(m))
  {
    forall i | 0 <= i < m.total ensures i in Indices(m.total) {
      assert Indices(m.total)[i] == i;
    }
  }

  // ---- single operations

  lemma SaveOk(m: Manifest, s: State, o: nat)
    requires Inv(m, s) && o < |s.objs|
    ensures Inv(m, Save(s, o))
  {
    assert RecordOk(m, s.objs[o]);
  }

  lemma SetStatusOk(m: Manifest, s: State, o: nat, status: Status)
    requires Inv(m, s) && o < |s.objs|
    requires status.Completed? ==> s.objs[o].missing == [] && s.objs[o].output == Some(m.fileHash)
    ensures Inv(m, SetStatus(s, o, status))
  {
    var s' := SetStatus(s, o, status);
    forall k | 0 <= k < |s'.workers| ensures TodoInRange(m, s'.workers[k]) && Covers(m, s'.objs[s'.workers[k].obj], s'.workers[k]) {
      assert TodoInRange(m, s.workers[k]) && Covers(m, s.objs[s.workers[k].obj], s.workers[k]);
    }
    forall k | 0 <= k < |s'.objs| ensures RecordOk(m, s'.objs[k]) {
      assert RecordOk(m, s.objs[k]);
    }
  }

  lemma AppendOk(m: Manifest, s: State, r: Record)
    requires Inv(m, s) && RecordOk(m, r)
    ensures Inv(m, s.(objs := s.objs + [r]))
  {
    var s' := s.(objs := s.objs + [r]);
    forall k | 0 <= k < |s'.workers| ensures TodoInRange(m, s'.workers[k]) && Covers(m, s'.objs[s'.workers[k].obj], s'.workers[k]) {
      assert s'.objs[s'.workers[k].obj] == s.objs[s.workers[k].obj];
    }
  }

  lemma SetWorkerOk(m: Manifest, s: State, w: nat, worker: Worker)
    requires Inv(m, s) && w < |s.workers| && worker.obj == s.workers[w].obj
    requires TodoInRange(m, worker) && Covers(m, s.objs[worker.obj], worker)
    ensures Inv(m, SetWorker(s, w, worker))
  {
  }

  lemma SpawnOk(m: Manifest, s: State, o: nat)
    requires Inv(m, s) && o < |s.objs| && !s.objs[o].status.Completed?
    ensures Inv(m, Spawn(s, o))
  {
  }

  lemma MarkOk(m: Manifest, s: State, o: nat, i: nat)
    requires Inv(m, s) && o < |s.objs| && i < m.total
    ensures Inv(m, s.(store := s.store + {i}, objs := s.objs[o := Marked(s.objs[o], i)]))
  {
    assert RecordOk(m, s.objs[o]);
    MarkedSpec(m.total, s.objs[o], i);
    var s' := s.(store := s.store + {i}, objs := s.objs[o := Marked(s.objs[o], i)]);
    forall k | 0 <= k < |s'.workers| ensures TodoInRange(m, s'.workers[k]) && Covers(m, s'.objs[s'.workers[k].obj], s'.workers[k]) {
      assert TodoInRange(m, s.workers[k]) && Covers(m, s.objs[s.workers[k].obj], s.workers[k]);
      CoversShrink(m, s.objs[s.workers[k].obj], s'.objs[s.workers[k].obj], s.workers[k]);
    }
    forall k | 0 <= k < |s'.objs| ensures RecordOk(m, s'.objs[k]) {
      assert RecordOk(m, s.objs[k]);
    }
  }

  lemma CoversShrink(m: Manifest, r: Record, r': Record, w: Worker)
    requires Covers(m, r, w) && forall j :: j in r'.missing ==> j in r.missing
    ensures Covers(m, r', w)
  {
    if w.pc.Merging? && |r'.missing| > 0 {
      assert r'.missing[0] in r.missing;
    }
  }

  // ---- steps

  lemma ExistingOk(m: Manifest, s: State)
    requires Inv(m, s)
    ensures Inv(m, Existing(s).0)
    ensures Existing(s).1.Some? ==> Existing(s).1.value < |Existing(s).0.objs|
  {
    if s.cur.None? && s.disk.Some? {
      AppendOk(m, s, s.disk.value);
    }
  }

  lemma StartOk(m: Manifest, s: State)
    requires Inv(m, s)
    ensures Inv(m, StartDownload(m, s))
  {
    ExistingOk(m, s);
    var (s1, found) := Existing(s);
    if found.Some? && (s1.objs[found.value].status.Downloading? || s1.objs[found.value].status.Completed?) {
    } else if found.Some? && |s1.objs[found.value].missing| > 0 {
      SetStatusOk(m, s1, found.value, Downloading);
      var s2 := SetStatus(s1, found.value, Downloading);
      SaveOk(m, s2, found.value);
      SpawnOk(m, Save(s2, found.value), found.value);
    } else {
      IndicesSpec(m);
      AppendOk(m, s1, NewRecord(m));
      var s2 := s1.(objs := s1.objs + [NewRecord(m)]);
      SaveOk(m, s2, |s1.objs|);
      SpawnOk(m, Save(s2, |s1.objs|), |s1.objs|);
    }
  }

  lemma ResumeOk(m: Manifest, s: State, hasManifest: bool)
    requires Inv(m, s)
    ensures Inv(m, ResumeDownload(s, hasManifest))
  {
    ExistingOk(m, s);
    var (s1, found) := Existing(s);
    if found.Some? {
      SetStatusOk(m, s1, found.value, Downloading);
      SpawnOk(m, SetStatus(s1, found.value, Downloading), found.value);
    }
  }

  lemma FinishPauseOk(m: Manifest, s: State, o: nat)
    requires Inv(m, s) && o < |s.objs|
    ensures Inv(m, FinishPause(s, o))
  {
    SetStatusOk(m, s, o, Paused);
    SaveOk(m, SetStatus(s, o, Paused), o);
  }

  lemma PauseOk(m: Manifest, s: State)
    requires Inv(m, s)
    ensures Inv(m, PauseDownload(s))
  {
    if s.cur.Some? {
      if s.event.Some? {
        var w := s.event.value;
        SetWorkerOk(m, s, w, s.workers[w].(stop := true));
        FinishPauseOk(m, SetWorker(s, w, s.workers[w].(stop := true)), s.cur.value);
      } else {
        FinishPauseOk(m, s, s.cur.value);
      }
    }
  }

  lemma RunOk(m: Manifest, s: State, w: nat)
    requires Inv(m, s) && Enabled(s, Run(w))
    ensures Inv(m, RunWorker(m, s, w))
  {
    var me := s.workers[w];
    var r := s.objs[me.obj];
    var todo := if me.pc.Created? then Todo(m.total, r.missing) else me.todo;
    assert RecordOk(m, r) && TodoInRange(m, me) && Covers(m, r, me);
    RemainingLoop(m, r, me);
    if |todo| == 0 {
      SetStatusOk(m, s, me.obj, Finalizing);
      var s1 := SetStatus(s, me.obj, Finalizing);
      SaveOk(m, s1, me.obj);
      SetWorkerOk(m, Save(s1, me.obj), w, me.(todo := todo, pc := Merging));
    } else if me.stop {
      SetWorkerOk(m, s, w, me.(todo := todo, pc := Ended));
    } else {
      NextChunk(m, r, me, todo);
      SetWorkerOk(m, s, w, me.(todo := todo[1..], pc := Fetching(todo[0])));
    }
  }

  lemma NextChunk(m: Manifest, r: Record, me: Worker, todo: seq<nat>)
    requires |todo| > 0 && (forall i :: i in todo ==> i < m.total) && (forall i :: i in r.missing ==> i in todo)
    ensures var me' := me.(todo := todo[1..], pc := Fetching(todo[0]));
            TodoInRange(m, me') && Covers(m, r, me')
  {
    assert todo == [todo[0]] + todo[1..];
    assert todo[0] in todo;
    forall i | i in todo[1..] ensures i in todo {
    }
  }

  /** The worker's remaining loop covers the missing chunks, from its first run on. */
  lemma RemainingLoop(m: Manifest, r: Record, me: Worker)
    requires RecordOk(m, r) && TodoInRange(m, me) && Covers(m, r, me) && (me.pc.Created? || me.pc.Head?)
    ensures var todo := if me.pc.Created? then Todo(m.total, r.missing) else me.todo;
            && (forall i :: i in todo ==> i < m.total)
            && (forall i :: i in r.missing ==> i in todo)
            && (todo == [] ==> r.missing == [])
  {
    TodoSpec(m.total, r.missing);
    if |r.missing| > 0 {
      assert r.missing[0] in r.missing;
    }
  }

  lemma FetchedOk(m: Manifest, s: State, w: nat)
    requires Inv(m, s) && Enabled(s, FetchOk(w))
    ensures Inv(m, Fetched(s, w))
  {
    var me := s.workers[w];
    var i := me.pc.index;
    assert RecordOk(m, s.objs[me.obj]) && TodoInRange(m, me) && Covers(m, s.objs[me.obj], me);
    MarkOk(m, s, me.obj, i);
    MarkedSpec(m.total, s.objs[me.obj], i);
    var s1 := s.(store := s.store + {i}, objs := s.objs[me.obj := Marked(s.objs[me.obj], i)]);
    SaveOk(m, s1, me.obj);
    SetWorkerOk(m, Save(s1, me.obj), w, me.(since := 0, pc := Head));
    SetWorkerOk(m, s1, w, me.(since := me.since + 1, pc := Head));
  }

  lemma IndexInRange(m: Manifest, s: State, w: nat)
    requires Inv(m, s) && Enabled(s, FetchOk(w))
    ensures s.workers[w].pc.index < m.total
  {
    assert Covers(m, s.objs[s.workers[w].obj], s.workers[w]);
  }

  lemma EndWithOk(m: Manifest, s: State, w: nat, status: Status, saveFirst: bool)
    requires Inv(m, s) && w < |s.workers|
    requires status.Completed? ==> s.objs[s.workers[w].obj].missing == [] && s.objs[s.workers[w].obj].output == Some(m.fileHash)
    ensures Inv(m, EndWith(s, w, status, saveFirst))
  {
    var me := s.workers[w];
    assert TodoInRange(m, me);
    if saveFirst {
      SaveOk(m, s, me.obj);
      SetStatusOk(m, Save(s, me.obj), me.obj, status);
      SetWorkerOk(m, SetStatus(Save(s, me.obj), me.obj, status), w, me.(pc := Ended));
    } else {
      SetStatusOk(m, s, me.obj, status);
      SaveOk(m, SetStatus(s, me.obj, status), me.obj);
      SetWorkerOk(m, Save(SetStatus(s, me.obj, status), me.obj), w, me.(pc := Ended));
    }
  }

  lemma MergeDoneOk(m: Manifest, s: State, w: nat, digest: string)
    requires Inv(m, s) && Enabled(s, Merged(w, digest))
    ensures Inv(m, MergeDone(m, s, w, digest))
  {
    if digest != m.fileHash {
      EndWithOk(m, s, w, Error, false);
    } else {
      var o := s.workers[w].obj;
      assert Covers(m, s.objs[o], s.workers[w]);
      var s1 := s.(objs := s.objs[o := s.objs[o].(output := Some(digest))]);
      OutputOk(m, s, o, digest);
      EndWithOk(m, s1, w, Completed, false);
    }
  }

  lemma OutputOk(m: Manifest, s: State, o: nat, digest: string)
    requires Inv(m, s) && o < |s.objs| && digest == m.fileHash
    ensures Inv(m, s.(objs := s.objs[o := s.objs[o].(output := Some(digest))]))
  {
    var s' := s.(objs := s.objs[o := s.objs[o].(output := Some(digest))]);
    forall k | 0 <= k < |s'.workers| ensures TodoInRange(m, s'.workers[k]) && Covers(m, s'.objs[s'.workers[k].obj], s'.workers[k]) {
      assert TodoInRange(m, s.workers[k]) && Covers(m, s.objs[s.workers[k].obj], s.workers[k]);
    }
    forall k | 0 <= k < |s'.objs| ensures RecordOk(m, s'.objs[k]) {
      assert RecordOk(m, s.objs[k]);
    }
  }

  lemma DropPauseOk(m: Manifest, s: State, p: nat)
    requires Inv(m, s) && p < |s.pauses|
    ensures Inv(m, s.(pauses := RemoveAt(s.pauses, p)))
  {
  }

  lemma WorkerStepInv(m: Manifest, s: State, a: Action)
    requires Inv(m, s) && Enabled(s, a)
    requires a.Run? || a.FetchOk? || a.FetchFails? || a.Merged? || a.MergeFails? || a.Cancelled?
    ensures Inv(m, Step(m, s, a))
  {
    match a
    case Run(w) => RunOk(m, s, w);
    case FetchOk(w) => FetchedOk(m, s, w);
    case FetchFails(w) => EndWithOk(m, s, w, Error, true);
    case Merged(w, digest) => MergeDoneOk(m, s, w, digest);
    case MergeFails(w) => EndWithOk(m, s, w, Error, false);
    case Cancelled(w) =>
      SetWorkerOk(m, s, w, s.workers[w].(pc := Ended));
      EndWithOk(m, s, w, Paused, false);
    case _ =>
  }

  lemma StepInv(m: Manifest, s: State, a: Action)
    requires Inv(m, s) && Enabled(s, a)
    ensures Inv(m, Step(m, s, a))
  {
    match a
    case Start => StartOk(m, s);
    case Resume(hasManifest) => ResumeOk(m, s, hasManifest);
    case Pause => PauseOk(m, s);
    case PauseTimeout(p) =>
      var w := s.pauses[p].worker;
      SetWorkerOk(m, s, w, s.workers[w].(cancel := s.workers[w].cancel || Live(s.workers[w])));
    case PauseWake(p) =>
      FinishPauseOk(m, s, s.pauses[p].obj);
      DropPauseOk(m, FinishPause(s, s.pauses[p].obj), p);
    case Clear =>
    case ClearFinished =>
    case Crash =>
    case Evict(_) =>
    case _ => WorkerStepInv(m, s, a);
  }

  lemma {:induction false} RunInv(m: Manifest, s: State, acts: seq<Action>)
    requires Inv(m, s) && After(m, s, acts).Some?
    ensures Inv(m, After(m, s, acts).value)
    decreases |acts|
  {
    if |acts| > 0 {
      StepInv(m, s, acts[0]);
      RunInv(m, Step(m, s, acts[0]), acts[1..]);
    }
  }

  /** In every run, with any mix of starts, pauses, timeouts, failures, crashes and recoveries: the
      tracked state and the .resume file partition the chunk indices, and `completed` means that
      nothing is missing and that the merged output has the file's hash. */
  lemma PartitionAndCompletion(m: Manifest, acts: seq<Action>)
    requires After(m, Fresh, acts).Some?
    ensures var s := After(m, Fresh, acts).value;
            && (s.cur.Some? ==> Partition(m.total, s.objs[s.cur.value]))
            && (s.disk.Some? ==> Partition(m.total, s.disk.value))
            && (s.cur.Some? && s.objs[s.cur.value].status.Completed? ==>
                  s.objs[s.cur.value].missing == [] && s.objs[s.cur.value].output == Some(m.fileHash))
  {
    RunInv(m, Fresh, acts);
  }

  // ---------------------------------------------------------------- completed means stored

  predicate Stored(s: State, r: Record) {
    forall i :: i in r.completed ==> i in s.store
  }

  ghost predicate AllStored(s: State) {
    (forall o :: 0 <= o < |s.objs| ==> Stored(s, s.objs[o])) && (s.disk.Some? ==> Stored(s, s.disk.value))
  }

  lemma SetStatusStored(s: State, o: nat, status: Status)
    requires o < |s.objs| && AllStored(s)
    ensures AllStored(SetStatus(s, o, status)) && AllStored(Save(s, o)) && AllStored(Save(SetStatus(s, o, status), o))
  {
    var s' := SetStatus(s, o, status);
    forall k | 0 <= k < |s'.objs| ensures Stored(s', s'.objs[k]) {
      assert Stored(s, s.objs[k]);
    }
    assert Stored(s, s.objs[o]);
  }

  lemma AppendStored(s: State, r: Record)
    requires AllStored(s) && Stored(s, r)
    ensures AllStored(s.(objs := s.objs + [r]))
  {
    var s' := s.(objs := s.objs + [r]);
    forall k | 0 <= k < |s'.objs| ensures Stored(s', s'.objs[k]) {
      assert k < |s.objs| ==> Stored(s, s.objs[k]);
    }
  }

  lemma StartStored(m: Manifest, s: State)
    requires WellIndexed(s) && AllStored(s)
    ensures AllStored(StartDownload(m, s))
  {
    if s.cur.None? && s.disk.Some? {
      AppendStored(s, s.disk.value);
    }
    var (s1, found) := Existing(s);
    if found.Some? {
      SetStatusStored(s1, found.value, Downloading);
    }
    AppendStored(s1, NewRecord(m));
    SetStatusStored(s1.(objs := s1.objs + [NewRecord(m)]), |s1.objs|, Downloading);
  }

  lemma ResumeStored(s: State, hasManifest: bool)
    requires WellIndexed(s) && AllStored(s)
    ensures AllStored(ResumeDownload(s, hasManifest))
  {
    if s.cur.None? && s.disk.Some? {
      AppendStored(s, s.disk.value);
    }
    var (s1, found) := Existing(s);
    if found.Some? {
      SetStatusStored(s1, found.value, Downloading);
    }
  }

  lemma PauseStored(s: State)
    requires WellIndexed(s) && AllStored(s)
    ensures AllStored(PauseDownload(s))
  {
    if s.cur.Some? {
      var s1 := if s.event.Some? then SetWorker(s, s.event.value, s.workers[s.event.value].(stop := true)) else s;
      assert AllStored(s1) by {
        assert s1.objs == s.objs && s1.disk == s.disk && s1.store == s.store;
      }
      SetStatusStored(s1, s.cur.value, Paused);
    }
  }

  lemma FetchedStored(s: State, w: nat)
    requires WellIndexed(s) && Enabled(s, FetchOk(w)) && AllStored(s)
    ensures AllStored(Fetched(s, w))
  {
    var me := s.workers[w];
    var r := Marked(s.objs[me.obj], me.pc.index);
    var s1 := s.(store := s.store + {me.pc.index}, objs := s.objs[me.obj := r]);
    assert Stored(s, s.objs[me.obj]);
    forall k | 0 <= k < |s1.objs| ensures Stored(s1, s1.objs[k]) {
      assert Stored(s, s.objs[k]);
    }
    SetStatusStored(s1, me.obj, s1.objs[me.obj].status);
  }

  lemma EndWithStored(s: State, w: nat, status: Status, saveFirst: bool)
    requires WellIndexed(s) && w < |s.workers| && AllStored(s)
    ensures AllStored(EndWith(s, w, status, saveFirst))
  {
    var o := s.workers[w].obj;
    SetStatusStored(s, o, status);
    SetStatusStored(Save(s, o), o, status);
  }

  lemma MergedStored(m: Manifest, s: State, w: nat, digest: string)
    requires WellIndexed(s) && Enabled(s, Merged(w, digest)) && AllStored(s)
    ensures AllStored(MergeDone(m, s, w, digest))
  {
    var o := s.workers[w].obj;
    var s1 := s.(objs := s.objs[o := s.objs[o].(output := Some(digest))]);
    forall k | 0 <= k < |s1.objs| ensures Stored(s1, s1.objs[k]) {
      assert Stored(s, s.objs[k]);
    }
    EndWithStored(s, w, Error, false);
    EndWithStored(s1, w, Completed, false);
  }

  lemma RunStored(m: Manifest, s: State, w: nat)
    requires WellIndexed(s) && Enabled(s, Run(w)) && AllStored(s)
    ensures AllStored(RunWorker(m, s, w))
  {
    SetStatusStored(s, s.workers[w].obj, Finalizing);
  }

  lemma CancelledStored(m: Manifest, s: State, w: nat)
    requires WellIndexed(s) && Enabled(s, Cancelled(w)) && AllStored(s)
    ensures AllStored(Step(m, s, Cancelled(w)))
  {
    EndWithStored(s, w, Paused, false);
  }

  lemma WorkerStored(m: Manifest, s: State, a: Action)
    requires WellIndexed(s) && Enabled(s, a) && AllStored(s)
    requires a.Run? || a.FetchOk? || a.FetchFails? || a.Merged? || a.MergeFails? || a.Cancelled?
    ensures AllStored(Step(m, s, a))
  {
    match a
    case Run(w) => RunStored(m, s, w);
    case FetchOk(w) => FetchedStored(s, w);
    case FetchFails(w) => EndWithStored(s, w, Error, true);
    case Merged(w, digest) => MergedStored(m, s, w, digest);
    case MergeFails(w) => EndWithStored(s, w, Error, false);
    case Cancelled(w) => CancelledStored(m, s, w);
    case _ =>
  }

  lemma StepStored(m: Manifest, s: State, a: Action)
    requires WellIndexed(s) && Enabled(s, a) && AllStored(s) && !a.Evict?
    ensures AllStored(Step(m, s, a))
  {
    match a
    case Start => StartStored(m, s);
    case Resume(hasManifest) => ResumeStored(s, hasManifest);
    case Pause => PauseStored(s);
    case PauseTimeout(_) =>
    case PauseWake(p) => SetStatusStored(s, s.pauses[p].obj, Paused);
    case Clear =>
    case ClearFinished =>
    case Crash =>
    case _ => WorkerStored(m, s, a);
  }

  /** Without eviction, the chunk of every index that is marked completed is in the local store. */
  lemma {:induction false} CompletedIsStored(m: Manifest, s: State, acts: seq<Action>)
    requires WellIndexed(s) && AllStored(s) && After(m, s, acts).Some?
    requires forall a :: a in acts ==> !a.Evict?
    ensures AllStored(After(m, s, acts).value)
    decreases |acts|
  {
    if |acts| > 0 {
      assert acts[0] in acts;
      StepStored(m, s, acts[0]);
      forall a | a in acts[1..] ensures !a.Evict? {
        assert a in acts;
      }
      CompletedIsStored(m, Step(m, s, acts[0]), acts[1..]);
    }
  }
}
