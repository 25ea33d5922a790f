/** Which chunks a download worker fetches (backend/api/download_manager.py:357-397). */
module DownloadFetches {
  import opened Seqs
  import opened Download
  import opened DownloadCrash
  import opened DownloadLosses
  import opened DownloadTwoWorkers

  // ---------------------------------------------------------------- what the other steps leave alone

  predicate SameLoop(a: Worker, b: Worker) {
    b.obj == a.obj && b.todo == a.todo && (b.pc == a.pc || b.pc.Ended?)
  }

  predicate SameLists(a: Record, b: Record) {
    b.missing == a.missing && b.completed == a.completed
  }

  /** Lists and loops stay; workers may end, and records or workers may be added. */
  ghost predicate Undisturbed(s: State, s': State) {
    && |s.objs| <= |s'.objs| && (forall o :: 0 <= o < |s.objs| ==> SameLists(s.objs[o], s'.objs[o]))
    && |s.workers| <= |s'.workers| && (forall k :: 0 <= k < |s.workers| ==> SameLoop(s.workers[k], s'.workers[k]))
  }

  lemma UndisturbedTwice(s: State, s1: State, s2: State)
    requires Undisturbed(s, s1) && Undisturbed(s1, s2)
    ensures Undisturbed(s, s2)
  {
    forall o | 0 <= o < |s.objs| ensures SameLists(s.objs[o], s2.objs[o]) {
      assert SameLists(s.objs[o], s1.objs[o]) && SameLists(s1.objs[o], s2.objs[o]);
    }
    forall k | 0 <= k < |s.workers| ensures SameLoop(s.workers[k], s2.workers[k]) {
      assert SameLoop(s.workers[k], s1.workers[k]) && SameLoop(s1.workers[k], s2.workers[k]);
    }
  }

  lemma AppendUndisturbed(s: State, r: Record)
    ensures Undisturbed(s, s.(objs := s.objs + [r]))
  {
  }

  lemma StatusUndisturbed(s: State, o: nat, status: Status)
    requires o < |s.objs|
    ensures Undisturbed(s, SetStatus(s, o, status))
  {
  }

  lemma SpawnUndisturbed(s: State, o: nat)
    ensures Undisturbed(s, Spawn(s, o))
  {
  }

  lemma ExistingUndisturbed(s: State)
    ensures Undisturbed(s, Existing(s).0)
  {
    if s.cur.None? && s.disk.Some? {
      AppendUndisturbed(s, s.disk.value);
    }
  }

  lemma StartUndisturbed(m: Manifest, s: State)
    requires WellIndexed(s)
    ensures Undisturbed(s, StartDownload(m, s))
  {
    var (s1, found) := Existing(s);
    ExistingUndisturbed(s);
    if found.Some? && (s1.objs[found.value].status.Downloading? || s1.objs[found.value].status.Completed?) {
    } else if found.Some? && |s1.objs[found.value].missing| > 0 {
      SavedUndisturbed(s1, SetStatus(s1, found.value, Downloading), found.value) by {
        StatusUndisturbed(s1, found.value, Downloading);
      }
      UndisturbedTwice(s, s1, StartDownload(m, s));
    } else {
      SavedUndisturbed(s1, s1.(objs := s1.objs + [NewRecord(m)]), |s1.objs|) by {
        AppendUndisturbed(s1, NewRecord(m));
      }
      UndisturbedTwice(s, s1, StartDownload(m, s));
    }
  }

  /** Saving and giving the download a worker. */
  lemma SavedUndisturbed(s: State, s1: State, o: nat)
    requires Undisturbed(s, s1) && o < |s1.objs|
    ensures Undisturbed(s, Spawn(Save(s1, o), o))
  {
    var saved := Save(s1, o);
    assert saved.objs == s1.objs && saved.workers == s1.workers;
    assert Undisturbed(s, saved);
    SpawnUndisturbed(saved, o);
    UndisturbedTwice(s, saved, Spawn(saved, o));
  }

  lemma ResumeUndisturbed(s: State, hasManifest: bool)
    requires WellIndexed(s)
    ensures Undisturbed(s, ResumeDownload(s, hasManifest))
  {
    var (s1, found) := Existing(s);
    ExistingUndisturbed(s);
    if ResumeDownload(s, hasManifest) != s1 {
      var s2 := SetStatus(s1, found.value, Downloading);
      StatusUndisturbed(s1, found.value, Downloading);
      SpawnUndisturbed(s2, found.value);
      UndisturbedTwice(s, s1, s2);
      UndisturbedTwice(s, s2, Spawn(s2, found.value));
    }
  }

  lemma WorkerUndisturbed(s: State, w: nat, worker: Worker)
    requires w < |s.workers| && SameLoop(s.workers[w], worker)
    ensures Undisturbed(s, SetWorker(s, w, worker)) && |SetWorker(s, w, worker).workers| == |s.workers|
  {
  }

  lemma FinishUndisturbed(s: State, o: nat)
    requires o < |s.objs|
    ensures Undisturbed(s, FinishPause(s, o)) && |FinishPause(s, o).workers| == |s.workers|
  {
    StatusUndisturbed(s, o, Paused);
    var s1 := SetStatus(s, o, Paused);
    assert FinishPause(s, o).objs == s1.objs && FinishPause(s, o).workers == s1.workers;
  }

  lemma PauseCallUndisturbed(s: State)
    requires WellIndexed(s)
    ensures Undisturbed(s, PauseDownload(s)) && |PauseDownload(s).workers| == |s.workers|
  {
    if s.cur.Some? && s.objs[s.cur.value].status.Downloading? {
      var s1 := if s.event.Some? then SetWorker(s, s.event.value, s.workers[s.event.value].(stop := true)) else s;
      assert Undisturbed(s, s1) by {
        if s.event.Some? {
          WorkerUndisturbed(s, s.event.value, s.workers[s.event.value].(stop := true));
        }
      }
      if !(s1.task.Some? && Live(s1.workers[s1.task.value])) {
        FinishUndisturbed(s1, s.cur.value);
        UndisturbedTwice(s, s1, FinishPause(s1, s.cur.value));
      }
    }
  }

  lemma PauseUndisturbed(m: Manifest, s: State, a: Action)
    requires WellIndexed(s) && Enabled(s, a) && (a.Pause? || a.PauseTimeout? || a.PauseWake?)
    ensures Undisturbed(s, Step(m, s, a)) && |Step(m, s, a).workers| == |s.workers|
  {
    match a
    case Pause => PauseCallUndisturbed(s);
    case PauseTimeout(p) =>
      var w := s.pauses[p].worker;
      WorkerUndisturbed(s, w, s.workers[w].(cancel := s.workers[w].cancel || Live(s.workers[w])));
    case PauseWake(p) => FinishUndisturbed(s, s.pauses[p].obj);
  }

  lemma EndWithUndisturbed(s: State, w: nat, status: Status, saveFirst: bool)
    requires WellIndexed(s) && w < |s.workers|
    ensures Undisturbed(s, EndWith(s, w, status, saveFirst)) && |EndWith(s, w, status, saveFirst).workers| == |s.workers|
  {
  }

  lemma MergeUndisturbed(m: Manifest, s: State, w: nat, digest: string)
    requires WellIndexed(s) && Enabled(s, Merged(w, digest))
    ensures Undisturbed(s, MergeDone(m, s, w, digest)) && |MergeDone(m, s, w, digest).workers| == |s.workers|
  {
    if digest != m.fileHash {
      EndWithUndisturbed(s, w, Error, false);
    } else {
      var o := s.workers[w].obj;
      EndWithUndisturbed(s.(objs := s.objs[o := s.objs[o].(output := Some(digest))]), w, Completed, false);
    }
  }

  lemma EndUndisturbed(m: Manifest, s: State, a: Action)
    requires WellIndexed(s) && Enabled(s, a) && (a.FetchFails? || a.Merged? || a.MergeFails? || a.Cancelled?)
    ensures Undisturbed(s, Step(m, s, a)) && |Step(m, s, a).workers| == |s.workers|
  {
    match a
    case FetchFails(w) => EndWithUndisturbed(s, w, Error, true);
    case Merged(w, digest) => MergeUndisturbed(m, s, w, digest);
    case MergeFails(w) => EndWithUndisturbed(s, w, Error, false);
    case Cancelled(w) => EndWithUndisturbed(s, w, Paused, false);
  }

  lemma OtherUndisturbed(m: Manifest, s: State, a: Action)
    requires WellIndexed(s) && Enabled(s, a) && !a.Crash? && !a.Run? && !a.FetchOk?
    ensures Undisturbed(s, Step(m, s, a))
    ensures !a.Start? && !a.Resume? ==> |Step(m, s, a).workers| == |s.workers|
  {
    if a.Start? {
      StartUndisturbed(m, s);
    } else if a.Resume? {
      ResumeUndisturbed(s, a.hasManifest);
    } else if a.Pause? || a.PauseTimeout? || a.PauseWake? {
      PauseUndisturbed(m, s, a);
    } else if a.FetchFails? || a.Merged? || a.MergeFails? || a.Cancelled? {
      EndUndisturbed(m, s, a);
    }
  }

  // ---------------------------------------------------------------- a resumed worker, in every run

  predicate InLoop(w: Worker) {
    w.pc.Head? || w.pc.Fetching?
  }

  /** Worker w works on record o and has nothing of `done` before it; `done` is completed there. */
  ghost predicate Avoids(s: State, w: nat, o: nat, done: set<nat>) {
    && w < |s.workers| && o < |s.objs| && s.workers[w].obj == o
    && (forall i :: i in done ==> i in s.objs[o].completed)
    && (InLoop(s.workers[w]) ==> forall i :: i in s.workers[w].todo ==> i !in done)
    && (s.workers[w].pc.Fetching? ==> s.workers[w].pc.index !in done)
  }

  lemma RunAvoids(m: Manifest, s: State, v: nat, w: nat, o: nat, done: set<nat>)
    requires Inv(m, s) && Avoids(s, w, o, done) && Enabled(s, Run(v))
    ensures Avoids(RunWorker(m, s, v), w, o, done)
  {
    if v == w {
      var r := s.objs[o];
      assert RecordOk(m, r);
      TodoSpec(m.total, r.missing);
      var todo := if s.workers[w].pc.Created? then Todo(m.total, r.missing) else s.workers[w].todo;
      assert forall i :: i in todo ==> i !in done;
      if |todo| > 0 {
        assert todo[0] in todo;
        assert forall i :: i in todo[1..] ==> i in todo;
      }
    }
  }

  lemma MarkedGrows(r: Record, i: nat)
    ensures forall j :: j in Marked(r, i).completed <==> j in r.completed || j == i
  {
  }

  lemma FetchedAvoids(s: State, v: nat, w: nat, o: nat, done: set<nat>)
    requires WellIndexed(s) && Avoids(s, w, o, done) && Enabled(s, FetchOk(v))
    ensures Avoids(Fetched(s, v), w, o, done)
  {
    MarkedGrows(s.objs[s.workers[v].obj], s.workers[v].pc.index);
  }

  lemma OtherAvoids(s: State, s': State, w: nat, o: nat, done: set<nat>)
    requires Avoids(s, w, o, done) && Undisturbed(s, s')
    ensures Avoids(s', w, o, done)
  {
    assert SameLists(s.objs[o], s'.objs[o]) && SameLoop(s.workers[w], s'.workers[w]);
  }

  lemma StepAvoids(m: Manifest, s: State, a: Action, w: nat, o: nat, done: set<nat>)
    requires Inv(m, s) && Avoids(s, w, o, done) && Enabled(s, a) && !a.Crash?
    ensures Avoids(Step(m, s, a), w, o, done)
  {
    if a.Run? {
      RunAvoids(m, s, a.w, w, o, done);
    } else if a.FetchOk? {
      FetchedAvoids(s, a.w, w, o, done);
    } else {
      OtherUndisturbed(m, s, a);
      OtherAvoids(s, Step(m, s, a), w, o, done);
    }
  }

  lemma {:induction false} RunKeepsAvoiding(m: Manifest, s: State, acts: seq<Action>, w: nat, o: nat, done: set<nat>)
    requires Inv(m, s) && Avoids(s, w, o, done) && After(m, s, acts).Some? && Crash !in acts
    ensures Avoids(After(m, s, acts).value, w, o, done)
    decreases |acts|
  {
    if |acts| > 0 {
      assert acts[0] in acts && forall a :: a in acts[1..] ==> a in acts;
      StepInv(m, s, acts[0]);
      StepAvoids(m, s, acts[0], w, o, done);
      RunKeepsAvoiding(m, Step(m, s, acts[0]), acts[1..], w, o, done);
    }
  }

  /** In every run, whatever is called when: a worker never fetches an index that was marked completed in its
      record when it was created. A resumed download does not fetch again what it had. */
  lemma NeverRefetched(m: Manifest, before: seq<Action>, acts: seq<Action>, w: nat)
    requires After(m, Fresh, before).Some? && After(m, After(m, Fresh, before).value, acts).Some? && Crash !in acts
    requires w < |After(m, Fresh, before).value.workers| && After(m, Fresh, before).value.workers[w].pc.Created?
    ensures var s, s' := After(m, Fresh, before).value, After(m, After(m, Fresh, before).value, acts).value;
            && w < |s'.workers| && s'.workers[w].obj == s.workers[w].obj
            && (s'.workers[w].pc.Fetching? ==> s'.workers[w].pc.index !in s.objs[s.workers[w].obj].completed)
  {
    var s := After(m, Fresh, before).value;
    RunInv(m, Fresh, before);
    RunKeepsAvoiding(m, s, acts, w, s.workers[w].obj, ToSet(s.objs[s.workers[w].obj].completed));
  }

  // ---------------------------------------------------------------- the moment of the fetch

  /** A step in which a worker other than w completes i on record o. */
  predicate MarksByOther(s: State, a: Action, w: nat, o: nat, i: nat) {
    a.FetchOk? && a.w != w && a.w < |s.workers| && s.workers[a.w].obj == o && s.workers[a.w].pc == Fetching(i)
  }

  ghost predicate MarkedByOther(m: Manifest, s: State, acts: seq<Action>, w: nat, o: nat, i: nat)
    requires WellIndexed(s)
    decreases |acts|
  {
    |acts| > 0 && Enabled(s, acts[0]) && (MarksByOther(s, acts[0], w, o, i) || MarkedByOther(m, Step(m, s, acts[0]), acts[1..], w, o, i))
  }

  /** Worker w visits each index of its loop once. */
  predicate LoopOk(s: State, w: nat) {
    && w < |s.workers| && (InLoop(s.workers[w]) ==> Distinct(s.workers[w].todo))
    && (s.workers[w].pc.Fetching? ==> s.workers[w].pc.index !in s.workers[w].todo)
  }

  /** Worker w will not fetch i any more. */
  predicate DoneWith(s: State, w: nat, i: nat) {
    && w < |s.workers| && !s.workers[w].pc.Created?
    && (InLoop(s.workers[w]) ==> i !in s.workers[w].todo) && s.workers[w].pc != Fetching(i)
  }

  lemma {:induction false} TodoDistinct(n: nat, missing: seq<nat>)
    ensures Distinct(Todo(n, missing))
  {
    if n > 0 {
      TodoDistinct(n - 1, missing);
      TodoSpec(n - 1, missing);
    }
  }

  lemma RunLoop(m: Manifest, s: State, v: nat, w: nat, i: nat)
    requires WellIndexed(s) && LoopOk(s, w) && Enabled(s, Run(v))
    ensures LoopOk(RunWorker(m, s, v), w)
    ensures DoneWith(s, w, i) ==> DoneWith(RunWorker(m, s, v), w, i)
  {
    if v == w {
      TodoDistinct(m.total, s.objs[s.workers[w].obj].missing);
      var todo := if s.workers[w].pc.Created? then Todo(m.total, s.objs[s.workers[w].obj].missing) else s.workers[w].todo;
      if |todo| > 0 {
        assert todo == [todo[0]] + todo[1..];
        assert todo[0] in todo && todo[0] !in todo[1..];
      }
    }
  }

  lemma FetchedLoop(s: State, v: nat, w: nat, i: nat)
    requires WellIndexed(s) && LoopOk(s, w) && Enabled(s, FetchOk(v))
    ensures LoopOk(Fetched(s, v), w)
    ensures DoneWith(s, w, i) || (v == w && s.workers[w].pc == Fetching(i)) ==> DoneWith(Fetched(s, v), w, i)
  {
  }

  lemma StepLoop(m: Manifest, s: State, a: Action, w: nat, i: nat)
    requires WellIndexed(s) && LoopOk(s, w) && Enabled(s, a) && !a.Crash?
    ensures LoopOk(Step(m, s, a), w)
    ensures DoneWith(s, w, i) ==> DoneWith(Step(m, s, a), w, i)
    ensures a == FetchOk(w) && s.workers[w].pc == Fetching(i) ==> DoneWith(Step(m, s, a), w, i)
  {
    if a.Run? {
      RunLoop(m, s, a.w, w, i);
    } else if a.FetchOk? {
      FetchedLoop(s, a.w, w, i);
    } else {
      OtherUndisturbed(m, s, a);
      assert SameLoop(s.workers[w], Step(m, s, a).workers[w]);
    }
  }

  lemma RunCompletes(m: Manifest, s: State, v: nat)
    requires WellIndexed(s) && Enabled(s, Run(v))
    ensures var s' := RunWorker(m, s, v);
            && |s'.objs| == |s.objs| && (forall o :: 0 <= o < |s.objs| ==> SameLists(s.objs[o], s'.objs[o]))
            && |s'.workers| == |s.workers| && (forall k :: 0 <= k < |s.workers| ==> s'.workers[k].obj == s.workers[k].obj)
  {
  }

  lemma FetchedCompletes(s: State, v: nat, o: nat, i: nat)
    requires WellIndexed(s) && Enabled(s, FetchOk(v)) && o < |s.objs|
    ensures var s' := Fetched(s, v);
            && |s'.objs| == |s.objs| && |s'.workers| == |s.workers|
            && (forall k :: 0 <= k < |s.workers| ==> s'.workers[k].obj == s.workers[k].obj)
            && (i in s'.objs[o].completed <==> i in s.objs[o].completed || (s.workers[v].obj == o && s.workers[v].pc == Fetching(i)))
  {
    MarkedGrows(s.objs[s.workers[v].obj], s.workers[v].pc.index);
  }

  /** What a step does to the completed list of a record. */
  lemma StepCompletes(m: Manifest, s: State, a: Action, w: nat, o: nat, i: nat)
    requires WellIndexed(s) && Enabled(s, a) && !a.Crash? && o < |s.objs| && w < |s.workers| && s.workers[w].obj == o
    requires !(a == FetchOk(w) && s.workers[w].pc == Fetching(i))
    ensures var s' := Step(m, s, a);
            && o < |s'.objs| && w < |s'.workers| && s'.workers[w].obj == o
            && (i in s'.objs[o].completed <==> i in s.objs[o].completed || MarksByOther(s, a, w, o, i))
  {
    if a.FetchOk? {
      FetchedCompletes(s, a.w, o, i);
    } else if a.Run? {
      RunCompletes(m, s, a.w);
      assert SameLists(s.objs[o], Step(m, s, a).objs[o]);
    } else {
      OtherUndisturbed(m, s, a);
      assert SameLists(s.objs[o], Step(m, s, a).objs[o]) && SameLoop(s.workers[w], Step(m, s, a).workers[w]);
    }
  }

  lemma {:induction false} DoneForever(m: Manifest, s: State, acts: seq<Action>, w: nat, i: nat)
    requires WellIndexed(s) && LoopOk(s, w) && DoneWith(s, w, i) && After(m, s, acts).Some? && Crash !in acts
    ensures DoneWith(After(m, s, acts).value, w, i)
    decreases |acts|
  {
    if |acts| > 0 {
      assert acts[0] in acts && forall a :: a in acts[1..] ==> a in acts;
      StepLoop(m, s, acts[0], w, i);
      DoneForever(m, Step(m, s, acts[0]), acts[1..], w, i);
    }
  }

  lemma {:induction false} CompletedSince(m: Manifest, s: State, acts: seq<Action>, w: nat, i: nat)
    requires WellIndexed(s) && LoopOk(s, w) && After(m, s, acts).Some? && Crash !in acts
    requires w < |After(m, s, acts).value.workers| && After(m, s, acts).value.workers[w].pc == Fetching(i)
    ensures var s', o := After(m, s, acts).value, s.workers[w].obj;
            && s'.workers[w].obj == o && o < |s'.objs|
            && (i in s'.objs[o].completed <==> i in s.objs[o].completed || MarkedByOther(m, s, acts, w, o, i))
    decreases |acts|
  {
    if |acts| > 0 {
      assert acts[0] in acts && forall a :: a in acts[1..] ==> a in acts;
      StepLoop(m, s, acts[0], w, i);
      if acts[0] == FetchOk(w) && s.workers[w].pc == Fetching(i) {
        DoneForever(m, Step(m, s, acts[0]), acts[1..], w, i);
      } else {
        StepCompletes(m, s, acts[0], w, s.workers[w].obj, i);
        CompletedSince(m, Step(m, s, acts[0]), acts[1..], w, i);
      }
    }
  }

  /** The chunk being fetched is by then marked completed if and only if another worker has completed it on the
      same record since this one was created. */
  lemma FetchIsWasted(m: Manifest, before: seq<Action>, acts: seq<Action>, w: nat)
    requires After(m, Fresh, before).Some? && After(m, After(m, Fresh, before).value, acts).Some? && Crash !in acts
    requires w < |After(m, Fresh, before).value.workers| && After(m, Fresh, before).value.workers[w].pc.Created?
    requires var s' := After(m, After(m, Fresh, before).value, acts).value; w < |s'.workers| && s'.workers[w].pc.Fetching?
    ensures var s, s' := After(m, Fresh, before).value, After(m, After(m, Fresh, before).value, acts).value;
            var o, i := s.workers[w].obj, s'.workers[w].pc.index;
            && o < |s'.objs|
            && (i in s'.objs[o].completed <==> MarkedByOther(m, s, acts, w, o, i))
  {
    var s := After(m, Fresh, before).value;
    var s' := After(m, s, acts).value;
    NeverRefetched(m, before, acts, w);
    CompletedSince(m, s, acts, w, s'.workers[w].pc.index);
  }

  lemma FirstRuns(m: Manifest, s: State, w: nat)
    requires m.total > 0 && WellIndexed(s) && w < |s.workers| && s.workers[w] == FIRST && s.objs == [NewRecord(m)]
    ensures Enabled(s, Run(w))
    ensures Step(m, s, Run(w)) == s.(workers := s.workers[w := FIRST.(todo := Range(1, m.total), pc := Fetching(0))])
  {
    IndicesAreRange(m.total);
    TodoOfRange(m.total, 0, m.total);
    assert Range(0, m.total)[0] == 0 && Range(0, m.total)[1..] == Range(1, m.total);
  }

  lemma BothFetching(m: Manifest)
    requires m.total > 0
    ensures Enabled(TwoOnOne(m), Run(1)) && Enabled(Step(m, TwoOnOne(m), Run(1)), Run(2))
    ensures var s2 := Step(m, Step(m, TwoOnOne(m), Run(1)), Run(2));
            && |s2.workers| == 3 && s2.objs == [NewRecord(m)] && s2.cur == Some(0)
            && s2.workers[1] == s2.workers[2] == FIRST.(todo := Range(1, m.total), pc := Fetching(0))
  {
    FirstRuns(m, TwoOnOne(m), 1);
    FirstRuns(m, Step(m, TwoOnOne(m), Run(1)), 2);
  }

  /** Two workers on one record do fetch the same chunk: for every file with chunks a run from the start leads
      to a worker that fetches what is completed. */
  lemma TwoWorkersFetchTwice(m: Manifest) returns (acts: seq<Action>)
    requires m.total > 0
    ensures After(m, Fresh, acts).Some?
    ensures var s := After(m, Fresh, acts).value;
            |s.workers| == 3 && s.workers[2].pc == Fetching(0) && 0 in s.objs[s.workers[2].obj].completed
  {
    BothFetching(m);
    var s1 := Step(m, TwoOnOne(m), Run(1));
    var s2 := Step(m, s1, Run(2));
    MarkedGrows(s2.objs[0], 0);
    NoneFirst(m, s2, FetchOk(1), []);
    NoneFirst(m, s1, Run(2), [FetchOk(1)] + []);
    NoneFirst(m, TwoOnOne(m), Run(1), [Run(2)] + ([FetchOk(1)] + []));
    acts := TwoOnOneReached(m, [Run(1)] + ([Run(2)] + ([FetchOk(1)] + [])));
  }

  // ---------------------------------------------------------------- orderly runs

  ghost predicate OneLive(s: State) {
    forall j, k :: 0 <= j < k < |s.workers| ==> !Live(s.workers[j]) || !Live(s.workers[k])
  }

  /** A worker past its start has only missing chunks before it. */
  predicate Exact(r: Record, w: Worker) {
    && (InLoop(w) ==> Distinct(w.todo) && forall i :: i in w.todo ==> i in r.missing)
    && (w.pc.Fetching? ==> w.pc.index in r.missing && w.pc.index !in w.todo)
  }

  ghost predicate AllExact(s: State)
    requires WellIndexed(s)
  {
    forall k :: 0 <= k < |s.workers| ==> Exact(s.objs[s.workers[k].obj], s.workers[k])
  }

  lemma LoopExact(m: Manifest, r: Record, w: Worker)
    requires Exact(r, w) && (w.pc.Created? || w.pc.Head?)
    ensures var todo := if w.pc.Created? then Todo(m.total, r.missing) else w.todo;
            |todo| > 0 ==> Exact(r, w.(todo := todo[1..], pc := Fetching(todo[0])))
  {
    TodoDistinct(m.total, r.missing);
    TodoSpec(m.total, r.missing);
    var todo := if w.pc.Created? then Todo(m.total, r.missing) else w.todo;
    if |todo| > 0 {
      assert todo == [todo[0]] + todo[1..] && todo[0] in todo;
    }
  }

  lemma RunExact(m: Manifest, s: State, w: nat)
    requires Inv(m, s) && OneLive(s) && AllExact(s) && Enabled(s, Run(w))
    ensures OneLive(RunWorker(m, s, w)) && AllExact(RunWorker(m, s, w))
  {
    var s' := RunWorker(m, s, w);
    assert Exact(s.objs[s.workers[w].obj], s.workers[w]);
    LoopExact(m, s.objs[s.workers[w].obj], s.workers[w]);
    RunCompletes(m, s, w);
    forall k | 0 <= k < |s'.workers| ensures Exact(s'.objs[s'.workers[k].obj], s'.workers[k]) {
      assert Exact(s.objs[s.workers[k].obj], s.workers[k]);
      assert SameLists(s.objs[s.workers[k].obj], s'.objs[s.workers[k].obj]);
    }
  }

  lemma FetchedExact(m: Manifest, s: State, w: nat)
    requires Inv(m, s) && OneLive(s) && AllExact(s) && Enabled(s, FetchOk(w))
    ensures OneLive(Fetched(s, w)) && AllExact(Fetched(s, w))
  {
    var s', me := Fetched(s, w), s.workers[w];
    assert RecordOk(m, s.objs[me.obj]) && Exact(s.objs[me.obj], me) && Covers(m, s.objs[me.obj], me);
    MarkedSpec(m.total, s.objs[me.obj], me.pc.index);
    forall k | 0 <= k < |s'.workers| ensures Exact(s'.objs[s'.workers[k].obj], s'.workers[k]) {
      assert Exact(s.objs[s.workers[k].obj], s.workers[k]);
      assert k != w ==> !Live(s.workers[k]);
    }
  }

  lemma OtherExact(s: State, s': State)
    requires WellIndexed(s) && WellIndexed(s') && OneLive(s) && AllExact(s) && Undisturbed(s, s') && |s'.workers| == |s.workers|
    ensures OneLive(s') && AllExact(s')
  {
    forall k | 0 <= k < |s'.workers|
      ensures Exact(s'.objs[s'.workers[k].obj], s'.workers[k]) && (Live(s'.workers[k]) ==> Live(s.workers[k]))
    {
      assert SameLoop(s.workers[k], s'.workers[k]) && SameLists(s.objs[s.workers[k].obj], s'.objs[s.workers[k].obj]);
      assert Exact(s.objs[s.workers[k].obj], s.workers[k]);
    }
  }

  lemma AcceptedExact(m: Manifest, s: State, a: Action)
    requires WellIndexed(s) && AllExact(s) && NoneLive(s) && Accepted(m, s, a)
    ensures OneLive(Step(m, s, a)) && AllExact(Step(m, s, a))
  {
    AcceptedShape(m, s, a);
  }

  lemma SameWorkers(m: Manifest, s: State, a: Action)
    requires WellIndexed(s) && Enabled(s, a) && !a.Crash? && !a.Run? && !a.FetchOk? && !Accepted(m, s, a)
    ensures |Step(m, s, a).workers| == |s.workers|
  {
    if a.Start? || a.Resume? {
      RefusedCall(m, s, a);
    } else {
      OtherUndisturbed(m, s, a);
    }
  }

  lemma {:induction false} ExactRun(m: Manifest, s: State, acts: seq<Action>)
    requires Inv(m, s) && OneLive(s) && AllExact(s) && After(m, s, acts).Some? && Orderly(m, s, acts)
    ensures AllExact(After(m, s, acts).value)
    decreases |acts|
  {
    if |acts| > 0 {
      var a := acts[0];
      StepInv(m, s, a);
      if Accepted(m, s, a) {
        AcceptedExact(m, s, a);
      } else if a.Run? {
        RunExact(m, s, a.w);
      } else if a.FetchOk? {
        FetchedExact(m, s, a.w);
      } else if !a.Crash? {
        OtherUndisturbed(m, s, a);
        SameWorkers(m, s, a);
        OtherExact(s, Step(m, s, a));
      }
      ExactRun(m, Step(m, s, a), acts[1..]);
    }
  }

  /** In an orderly run the chunk being fetched is missing, and not marked completed, at that moment. */
  lemma FetchesOnlyMissing(m: Manifest, acts: seq<Action>, w: nat)
    requires After(m, Fresh, acts).Some? && Orderly(m, Fresh, acts)
    requires w < |After(m, Fresh, acts).value.workers| && After(m, Fresh, acts).value.workers[w].pc.Fetching?
    ensures var s := After(m, Fresh, acts).value;
            var r, i := s.objs[s.workers[w].obj], s.workers[w].pc.index;
            i in r.missing && i !in r.completed
  {
    var s := After(m, Fresh, acts).value;
    ExactRun(m, Fresh, acts);
    RunInv(m, Fresh, acts);
    assert Exact(s.objs[s.workers[w].obj], s.workers[w]) && RecordOk(m, s.objs[s.workers[w].obj]);
  }
}
