/** The manager as an object: each method is one uninterrupted stretch of its source, updates the fields in
    place, and is proved to be the corresponding step of the Download state machine. An object that is
    Valid keeps its promises: what is tracked and what is saved partition the chunks, and a completed
    download has the file's hash (backend/api/download_manager.py:129-473). */
module DownloadManagers {
  import opened Seqs
  import opened Crypto
  import D = Download
  import DC = DownloadCrash
  import C = Chunker
  import P = Pipeline

  class DownloadManager {
    const m: D.Manifest
    var objs: seq<D.Record>
    var cur: Option<nat>
    var disk: Option<D.Record>
    var workers: seq<D.Worker>
    var pauses: seq<D.Waiting>
    var task: Option<nat>
    var event: Option<nat>
    var store: set<nat>

    ghost function View(): D.State
      reads this
    {
      D.State(objs, cur, disk, workers, pauses, task, event, store)
    }

    ghost predicate Valid()
      reads this
    {
      D.Inv(m, View())
    }

    /** What a caller relies on. */
    ghost predicate Promised()
      reads this
    {
      && (cur.Some? ==> cur.value < |objs| && D.Partition(m.total, objs[cur.value]))
      && (disk.Some? ==> D.Partition(m.total, disk.value))
      && (cur.Some? && objs[cur.value].status.Completed? ==>
            objs[cur.value].missing == [] && objs[cur.value].output == Some(m.fileHash))
    }

    lemma ValidPromises()
      requires Valid()
      ensures Promised()
    {
    }

    constructor (m: D.Manifest)
      ensures Valid() && Promised() && this.m == m && View() == D.Fresh
    {
      this.m := m;
      objs, cur, disk, workers, pauses := [], None, None, [], [];
      task, event, store := None, None, {};
    }

    method SaveResume(o: nat)
      requires Valid() && o < |objs|
      modifies this`disk
      ensures Valid() && View() == D.Save(old(View()), o)
    {
      D.SaveOk(m, View(), o);
      disk := Some(objs[o].(output := None));
    }

    method CreateTask(o: nat)
      requires Valid() && o < |objs| && !objs[o].status.Completed?
      modifies this`cur, this`workers, this`task, this`event
      ensures Valid() && View() == D.Spawn(old(View()), o)
    {
      D.SpawnOk(m, View(), o);
      cur := Some(o);
      event, task := Some(|workers|), Some(|workers|);
      workers := workers + [D.Worker(o, [], 0, D.Created, false, false)];
    }

    /** `self._downloads.get(file_hash) or self._load_resume(file_hash)` */
    method FindExisting() returns (found: Option<nat>)
      requires Valid()
      modifies this`objs
      ensures Valid() && View() == D.Existing(old(View())).0 && found == D.Existing(old(View())).1
      ensures found.Some? ==> found.value < |objs|
    {
      D.ExistingOk(m, View());
      found := cur;
      if cur.None? && disk.Some? {
        found := Some(|objs|);
        objs := objs + [disk.value];
      }
    }

    method SetStatus(o: nat, status: D.Status)
      requires Valid() && o < |objs| && !status.Completed?
      modifies this`objs
      ensures Valid() && View() == D.SetStatus(old(View()), o, status)
    {
      D.SetStatusOk(m, View(), o, status);
      objs := objs[o := objs[o].(status := status)];
    }

    method AddRecord()
      requires Valid()
      modifies this`objs
      ensures Valid() && objs == old(objs) + [D.NewRecord(m)]
    {
      D.IndicesSpec(m);
      D.AppendOk(m, View(), D.NewRecord(m));
      objs := objs + [D.Record(D.Indices(m.total), [], D.Downloading, None)];
    }

    method StartDownload()
      requires Valid()
      modifies this
      ensures Valid() && Promised() && View() == D.StartDownload(m, old(View()))
    {
      ValidPromises();
      var existing := FindExisting();
      if existing.Some? && (objs[existing.value].status.Downloading? || objs[existing.value].status.Completed?) {
        ValidPromises();
        return;
      }
      var o: nat;
      if existing.Some? && |objs[existing.value].missing| > 0 {
        o := existing.value;
        SetStatus(o, D.Downloading);
      } else {
        o := |objs|;
        AddRecord();
      }
      SaveResume(o);
      CreateTask(o);
      ValidPromises();
    }

    method ResumeDownload(hasManifest: bool)
      requires Valid()
      modifies this
      ensures Valid() && Promised() && View() == D.ResumeDownload(old(View()), hasManifest)
    {
      var existing := FindExisting();
      ValidPromises();
      if existing.None? {
        return;
      }
      var o := existing.value;
      if objs[o].status.Downloading? || objs[o].status.Completed? || !hasManifest {
        return;
      }
      SetStatus(o, D.Downloading);
      CreateTask(o);
      ValidPromises();
    }

    /** After the wait of pause_download, or at once when there is nothing to wait for. */
    method CompletePause(o: nat)
      requires Valid() && o < |objs|
      modifies this
      ensures Valid() && Promised() && View() == D.FinishPause(old(View()), o)
      ensures disk.Some? && disk.value.status.Paused? && disk.value.missing == objs[o].missing && disk.value.completed == objs[o].completed
    {
      SetStatus(o, D.Paused);
      SaveResume(o);
      task, event := None, None;
      D.FinishPauseOk(m, old(View()), o);
      ValidPromises();
    }

    method PauseDownload()
      requires Valid()
      modifies this
      ensures Valid() && Promised() && View() == D.PauseDownload(old(View()))
    {
      D.PauseOk(m, View());
      ValidPromises();
      if cur.None? {
        return;
      }
      var o := cur.value;
      if objs[o].status != D.Downloading {
        return;
      }
      if event.Some? {
        D.SetWorkerOk(m, View(), event.value, workers[event.value].(stop := true));
        workers := workers[event.value := workers[event.value].(stop := true)];
      }
      if task.Some? && !workers[task.value].pc.Ended? {
        pauses := pauses + [D.Waiting(o, task.value)];
        ValidPromises();
        return;
      }
      CompletePause(o);
    }

    // -------------------------------------------------------------- the worker

    /** The loop over the manifest's chunks, as far as it skips what is not missing. */
    method ToVisit(missing: seq<nat>) returns (todo: seq<nat>)
      ensures todo == D.Todo(m.total, missing)
    {
      todo := [];
      for i := 0 to m.total
        invariant todo == D.Todo(i, missing)
      {
        if i in missing {
          todo := todo + [i];
        }
      }
    }

    /** From the worker's start or a loop head to its next await or its end. */
    method RunWorker(w: nat)
      requires Valid() && D.Enabled(View(), D.Run(w))
      modifies this
      ensures Valid() && Promised() && View() == D.RunWorker(m, old(View()), w)
    {
      D.RunOk(m, View(), w);
      var me := workers[w];
      if me.pc.Created? {
        var todo := ToVisit(objs[me.obj].missing);
        me := me.(todo := todo);
      }
      if |me.todo| == 0 {
        SetStatus(me.obj, D.Finalizing);
        SaveResume(me.obj);
        workers := workers[w := me.(pc := D.Merging)];
      } else if me.stop {
        workers := workers[w := me.(pc := D.Ended)];
      } else {
        workers := workers[w := me.(todo := me.todo[1..], pc := D.Fetching(me.todo[0]))];
      }
      ValidPromises();
    }

    /** The arrived chunk is stored and its index moves from missing to completed. */
    method MarkArrived(o: nat, i: nat)
      requires Valid() && o < |objs| && i < m.total
      modifies this`objs, this`store
      ensures Valid() && Promised()
      ensures View() == old(View()).(store := old(store) + {i}, objs := old(objs)[o := D.Marked(old(objs)[o], i)])
      ensures i in store && i !in objs[o].missing && i in objs[o].completed
    {
      D.MarkOk(m, View(), o, i);
      D.MarkedSpec(m.total, objs[o], i);
      if i !in store {
        store := store + {i};
      }
      var state := objs[o];
      if i in state.missing {
        state := state.(missing := D.RemoveFirst(state.missing, i));
      }
      if i !in state.completed {
        state := state.(completed := state.completed + [i]);
      }
      objs := objs[o := state];
      ValidPromises();
    }

    /** The body of the worker's loop after its chunk has arrived, up to the next await. The .resume file
        stays behind by no more than the chunks since the flush. */
    method ChunkArrived(w: nat)
      requires Valid() && D.Enabled(View(), D.FetchOk(w))
      modifies this
      ensures Valid() && Promised() && View() == D.Fetched(old(View()), w)
      ensures DC.Framed(old(View())) && DC.Single(old(View())) ==> DC.Behind(View(), workers[w].since) && workers[w].since < D.FLUSH_INTERVAL
    {
      ghost var before := View();
      D.IndexInRange(m, before, w);
      var me := workers[w];
      MarkArrived(me.obj, me.pc.index);
      me := me.(since := me.since + 1);
      if me.since >= D.FLUSH_INTERVAL {
        SaveResume(me.obj);
        me := me.(since := 0);
      }
      workers := workers[w := me.(pc := D.Head)];
      assert View() == D.Fetched(before, w);
      D.FetchedOk(m, before, w);
      DC.FetchedGap(before, w);
      ValidPromises();
    }

    /** The failed fetch: progress is saved before the status says so. */
    method FetchFailed(w: nat)
      requires Valid() && D.Enabled(View(), D.FetchFails(w))
      modifies this
      ensures Valid() && Promised() && View() == D.EndWith(old(View()), w, D.Error, true)
    {
      D.EndWithOk(m, View(), w, D.Error, true);
      var o := workers[w].obj;
      SaveResume(o);
      SetStatus(o, D.Error);
      workers := workers[w := workers[w].(pc := D.Ended)];
      ValidPromises();
    }

    /** A cancelled worker saves its state as paused, unless it had not started. */
    method WorkerCancelled(w: nat)
      requires Valid() && D.Enabled(View(), D.Cancelled(w))
      modifies this
      ensures Valid() && Promised() && View() == D.Step(m, old(View()), D.Cancelled(w))
    {
      D.WorkerStepInv(m, View(), D.Cancelled(w));
      if !workers[w].pc.Created? {
        var o := workers[w].obj;
        SetStatus(o, D.Paused);
        SaveResume(o);
      }
      workers := workers[w := workers[w].(pc := D.Ended)];
      ValidPromises();
    }

    method MergeFinished(w: nat, digest: string)
      requires Valid() && D.Enabled(View(), D.Merged(w, digest)) && digest == m.fileHash
      modifies this
      ensures Valid() && Promised() && View() == D.MergeDone(m, old(View()), w, digest)
      ensures var o := old(workers[w].obj); o < |objs| && objs[o].status.Completed? && objs[o].output == Some(digest)
    {
      D.MergeDoneOk(m, View(), w, digest);
      var o := workers[w].obj;
      objs := objs[o := objs[o].(status := D.Completed, output := Some(digest))];
      disk := Some(objs[o].(output := None));
      workers := workers[w := workers[w].(pc := D.Ended)];
      ValidPromises();
    }

    method MergeFailed(w: nat)
      requires Valid() && D.Enabled(View(), D.MergeFails(w))
      modifies this
      ensures Valid() && Promised() && View() == D.EndWith(old(View()), w, D.Error, false)
      ensures var o := old(workers[w].obj); o < |objs| && objs[o].status.Error?
    {
      D.EndWithOk(m, View(), w, D.Error, false);
      var o := workers[w].obj;
      SetStatus(o, D.Error);
      SaveResume(o);
      workers := workers[w := workers[w].(pc := D.Ended)];
      ValidPromises();
    }

    /** The final merge of the stored chunks with its outcome: the download is completed exactly when the
        file was written, and the digest it then records is that of the written bytes. */
    method FinalMerge(w: nat, l: Library, manifest: C.Manifest, load: string -> Option<Bytes>, password: Option<string>)
      returns (r: C.OnDisk)
      requires Valid() && D.Enabled(View(), D.MergeFails(w)) && manifest.fileHash == m.fileHash
      modifies this
      ensures Valid() && Promised()
      ensures r == C.DiskOutcome(l, manifest, P.Reference(password), P.Items(load, SortBy(manifest.chunks, P.InfoIndex())))
      ensures r.Written? ==> View() == D.MergeDone(m, old(View()), w, l.hash(r.content))
      ensures r.Failed? ==> View() == D.EndWith(old(View()), w, D.Error, false)
      ensures var o := old(workers[w].obj);
              && o < |objs| && (objs[o].status.Completed? <==> r.Written?)
              && (r.Written? ==> objs[o].output == Some(l.hash(r.content)) && l.hash(r.content) == m.fileHash)
    {
      r := P.MergeToDisk(l, manifest, load, password);
      if r.Written? {
        MergeFinished(w, l.hash(r.content));
      } else {
        MergeFailed(w);
      }
    }

    /** On startup: what the .resume file holds becomes a paused download. */
    method Recover()
      requires Valid()
      modifies this
      ensures Valid() && Promised() && View() == D.Recovered(old(View()))
      ensures workers == [] && pauses == [] && disk == old(disk) && (cur.Some? <==> disk.Some?)
      ensures disk.Some? ==>
                && cur.value < |objs| && objs[cur.value].status == D.Paused
                && objs[cur.value].missing == disk.value.missing && objs[cur.value].completed == disk.value.completed
    {
      objs, cur, workers, pauses, task, event := [], None, [], [], None, None;
      if disk.Some? {
        objs, cur := [disk.value.(status := D.Paused)], Some(0);
      }
      ValidPromises();
    }
  }
}
