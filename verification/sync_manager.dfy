/** Moving the device's tasks to the cloud after sign-in
    (`syncLocalTasksToFirebase`) and the title-and-time de-duplication of a
    cloud list against a local one (`mergeTasks`). */
module SyncManager {
  import opened Common
  import opened Firestore
  import opened LocalStorage

  // ---------------------------------------------------------------------
  // syncLocalTasksToFirebase

  /** The local tasks the migration writes: those without a truthy `syncId`, in order. */
  function Pending(ts: seq<LocalTask>): (p: seq<LocalTask>)
    ensures |p| <= |ts|
    decreases |ts|
  {
    if ts == [] then []
    else Pending(ts[..|ts| - 1]) + (if Present(ts[|ts| - 1].syncId) then [] else [ts[|ts| - 1]])
  }

  lemma {:induction false} PendingMembers(ts: seq<LocalTask>, t: LocalTask)
    ensures t in Pending(ts) <==> t in ts && !Present(t.syncId)
    decreases |ts|
  {
    if ts != [] {
      var init := ts[..|ts| - 1];
      PendingMembers(init, t);
      assert ts == init + [ts[|ts| - 1]];
    }
  }

  lemma PendingSnoc(ts: seq<LocalTask>, t: LocalTask)
    ensures Pending(ts + [t]) == Pending(ts) + (if Present(t.syncId) then [] else [t])
  {
    assert (ts + [t])[..|ts|] == ts;
  }

  /** A task with a truthy `syncId` adds nothing to the migration. */
  lemma SkipStep(localTasks: seq<LocalTask>, i: nat)
    requires i < |localTasks| && Present(localTasks[i].syncId)
    ensures Pending(localTasks[..i + 1]) == Pending(localTasks[..i])
  {
    assert localTasks[..i + 1] == localTasks[..i] + [localTasks[i]];
    PendingSnoc(localTasks[..i], localTasks[i]);
  }

  /** Any other task adds its stamped record on the next id to the batch. */
  lemma QueueStep(localTasks: seq<LocalTask>, i: nat, userId: string, start: nat, batch: seq<(string, Record)>, taskRef: string)
    requires i < |localTasks| && !Present(localTasks[i].syncId)
    requires batch == Writes(Pending(localTasks[..i]), userId, start)
    requires taskRef == IdAt(start, |Pending(localTasks[..i])|)
    ensures |Pending(localTasks[..i + 1])| == |Pending(localTasks[..i])| + 1
    ensures batch + [(taskRef, SyncRecord(localTasks[i], userId))] == Writes(Pending(localTasks[..i + 1]), userId, start)
  {
    assert localTasks[..i + 1] == localTasks[..i] + [localTasks[i]];
    PendingSnoc(localTasks[..i], localTasks[i]);
    WritesSnoc(Pending(localTasks[..i]), localTasks[i], userId, start);
  }

  /** Every task without a `syncId` is pending: the count is the number of those. */
  lemma {:induction false} PendingAll(ts: seq<LocalTask>)
    requires forall i :: 0 <= i < |ts| ==> !Present(ts[i].syncId)
    ensures Pending(ts) == ts
    decreases |ts|
  {
    if ts != [] {
      PendingAll(ts[..|ts| - 1]);
      assert ts[..|ts| - 1] + [ts[|ts| - 1]] == ts;
    }
  }

  /** The document the batch writes for one local task: its converted data
      stamped with the signed-in user. */
  function SyncRecord(t: LocalTask, userId: string): Record
  {
    var d := ConvertLocalTaskToTask(t);
    map[
      "title" := Str(d.title),
      "description" := OptStr(d.description),
      "completed" := Bool(d.completed),
      "priority" := Str(d.priority),
      "category" := Str(d.category),
      "userId" := Str(userId),
      "dueDate" := DueValue(d.dueDate),
      "createdAt" := Stamp(d.createdAt),
      "updatedAt" := Stamp(d.updatedAt)]
  }

  /** The record carries the signed-in user, the parsed timestamps, a `null`
      due date exactly when the local one is empty, and no `id` field. */
  lemma SyncRecordFields(t: LocalTask, userId: string)
    ensures var rec := SyncRecord(t, userId);
      && "userId" in rec && rec["userId"] == Str(userId)
      && "createdAt" in rec && rec["createdAt"] == Stamp(ParseTime(t.createdAt))
      && "updatedAt" in rec && rec["updatedAt"] == Stamp(ParseTime(t.updatedAt))
      && "dueDate" in rec && (rec["dueDate"] == Null <==> !HasDueText(t.dueDate))
      && (HasDueText(t.dueDate) ==> rec["dueDate"] == Stamp(ParseTime(t.dueDate.value)))
      && "title" in rec && rec["title"] == Str(t.title)
      && "id" !in rec
  {
  }

  /** The id of the `i`-th document allocated from `start` on. */
  function IdAt(start: nat, i: nat): (id: string)
    ensures IdNumber(id) == start + i
  {
    DocId(start + i)
  }

  /** The batch for the pending tasks, on consecutive new document ids from `start`. */
  function Writes(ts: seq<LocalTask>, userId: string, start: nat): (ws: seq<(string, Record)>)
    ensures |ws| == |ts|
    decreases |ts|
  {
    if ts == [] then []
    else Writes(ts[..|ts| - 1], userId, start) + [(IdAt(start, |ts| - 1), SyncRecord(ts[|ts| - 1], userId))]
  }

  lemma WritesSnoc(ts: seq<LocalTask>, t: LocalTask, userId: string, start: nat)
    ensures Writes(ts + [t], userId, start) == Writes(ts, userId, start) + [(IdAt(start, |ts|), SyncRecord(t, userId))]
  {
    assert (ts + [t])[..|ts|] == ts;
  }

  lemma {:induction false} WritesIds(ts: seq<LocalTask>, userId: string, start: nat)
    ensures forall j :: 0 <= j < |ts| ==> Writes(ts, userId, start)[j].0 == IdAt(start, j)
    ensures forall j :: 0 <= j < |ts| ==> Writes(ts, userId, start)[j].1 == SyncRecord(ts[j], userId)
    decreases |ts|
  {
    if ts != [] {
      WritesIds(ts[..|ts| - 1], userId, start);
    }
  }

  /** The loop of `syncLocalTasksToFirebase`: skips every task with a truthy
      `syncId` and queues, for every other, one `set` of its stamped record on
      a new document; `syncedCount` counts the queued writes. */
  method QueueWrites(db: Database, userId: string, localTasks: seq<LocalTask>)
    returns (batch: seq<(string, Record)>, syncedCount: nat)
    requires db.Valid()
    modifies db
    ensures db.Valid() && db.tasks == old(db.tasks) && db.users == old(db.users)
    ensures syncedCount == |Pending(localTasks)| == |batch|
    ensures db.nextId == old(db.nextId) + syncedCount
    ensures batch == Writes(Pending(localTasks), userId, old(db.nextId))
  {
    batch := [];
    syncedCount := 0;
    var i := 0;
    assert localTasks[..0] == [];
    while i < |localTasks|
      invariant 0 <= i <= |localTasks|
      invariant db.Valid() && db.tasks == old(db.tasks) && db.users == old(db.users)
      invariant syncedCount == |Pending(localTasks[..i])|
      invariant db.nextId == old(db.nextId) + syncedCount
      invariant batch == Writes(Pending(localTasks[..i]), userId, old(db.nextId))
    {
      var localTask := localTasks[i];
      if Present(localTask.syncId) {
        SkipStep(localTasks, i);
        i := i + 1;
        continue;
      }
      var taskRef := db.NewDocId();
      QueueStep(localTasks, i, userId, old(db.nextId), batch, taskRef);
      batch := batch + [(taskRef, SyncRecord(localTask, userId))];
      syncedCount := syncedCount + 1;
      i := i + 1;
    }
    assert localTasks[..i] == localTasks;
  }

  /** `syncLocalTasksToFirebase`: nothing at all for an empty list;
      otherwise the queued writes, committed as one batch only when there is
      at least one. A failed commit writes nothing and is rethrown. */
  method SyncLocalTasksToFirebase(db: Database, userId: string, localTasks: seq<LocalTask>, commitFails: bool)
    returns (r: Outcome<StoreError>, syncedCount: nat)
    requires db.Valid()
    modifies db
    ensures db.Valid() && db.users == old(db.users)
    ensures syncedCount == |Pending(localTasks)|
    ensures db.nextId == old(db.nextId) + syncedCount
    ensures localTasks == [] ==> r == Pass && db.tasks == old(db.tasks)
    ensures r.Fail? <==> commitFails && syncedCount > 0
    ensures r.Pass? ==> db.tasks == ApplyWrites(old(db.tasks), Writes(Pending(localTasks), userId, old(db.nextId)))
    ensures r.Fail? ==> db.tasks == old(db.tasks)
  {
    if |localTasks| == 0 {
      return Pass, 0;
    }
    var batch;
    batch, syncedCount := QueueWrites(db, userId, localTasks);
    if syncedCount > 0 {
      WritesBelow(Pending(localTasks), userId, old(db.nextId));
      r := db.CommitBatch(batch, commitFails);
    } else {
      r := Pass;
    }
  }

  /** The batch's ids are all numbered below the next free one. */
  lemma WritesBelow(ts: seq<LocalTask>, userId: string, start: nat)
    ensures forall j :: 0 <= j < |ts| ==> IdNumber(Writes(ts, userId, start)[j].0) < start + |ts|
  {
    WritesIds(ts, userId, start);
  }

  /** Writes on ids numbered from `start` on, into a collection whose ids
      are all numbered below `start`, add one new document each and leave
      every existing document as it was. */
  lemma {:induction false} FreshWrites(tasks: map<string, Record>, ws: seq<(string, Record)>, start: nat)
    requires forall id :: id in tasks ==> IdNumber(id) < start
    requires forall j :: 0 <= j < |ws| ==> IdNumber(ws[j].0) == start + j
    ensures var after := ApplyWrites(tasks, ws);
      && (forall id :: id in tasks ==> id in after && after[id] == tasks[id])
      && (forall j :: 0 <= j < |ws| ==> ws[j].0 !in tasks && ws[j].0 in after && after[ws[j].0] == ws[j].1)
    decreases |ws|
  {
    if ws != [] {
      var n := |ws| - 1;
      var init := ws[..n];
      FreshWrites(tasks, init, start);
      assert ws == init + [ws[n]];
      ApplyWritesSnoc(tasks, init, ws[n]);
      FreshWritesLast(tasks, ws, start);
    }
  }

  lemma FreshWritesLast(tasks: map<string, Record>, ws: seq<(string, Record)>, start: nat)
    requires ws != []
    requires forall id :: id in tasks ==> IdNumber(id) < start
    requires forall j :: 0 <= j < |ws| ==> IdNumber(ws[j].0) == start + j
    requires var before := ApplyWrites(tasks, ws[..|ws| - 1]);
      && (forall id :: id in tasks ==> id in before && before[id] == tasks[id])
      && (forall j :: 0 <= j < |ws| - 1 ==> ws[j].0 !in tasks && ws[j].0 in before && before[ws[j].0] == ws[j].1)
    requires ApplyWrites(tasks, ws) == ApplyWrites(tasks, ws[..|ws| - 1])[ws[|ws| - 1].0 := ws[|ws| - 1].1]
    ensures var after := ApplyWrites(tasks, ws);
      && (forall id :: id in tasks ==> id in after && after[id] == tasks[id])
      && (forall j :: 0 <= j < |ws| ==> ws[j].0 !in tasks && ws[j].0 in after && after[ws[j].0] == ws[j].1)
  {
    var n := |ws| - 1;
    var after := ApplyWrites(tasks, ws);
    forall j | 0 <= j < |ws|
      ensures ws[j].0 !in tasks && ws[j].0 in after && after[ws[j].0] == ws[j].1
    {
      if j < n {
        assert ws[..n][j] == ws[j];
        assert IdNumber(ws[j].0) != IdNumber(ws[n].0);
      }
    }
  }

  /** The writes add no document beyond their own ids. */
  lemma WritesOnlyTheirIds(tasks: map<string, Record>, ws: seq<(string, Record)>)
    ensures forall id :: id in ApplyWrites(tasks, ws) ==> id in tasks || exists j :: 0 <= j < |ws| && id == ws[j].0
  {
    ApplyWritesKeys(tasks, ws);
  }

  /** The migration adds one new document per pending task, holding that
      task's record, and leaves every existing document as it was. */
  lemma SyncWritesFresh(tasks: map<string, Record>, ts: seq<LocalTask>, userId: string, start: nat)
    requires forall id :: id in tasks ==> IdNumber(id) < start
    ensures var after := ApplyWrites(tasks, Writes(ts, userId, start));
      && (forall id :: id in tasks ==> id in after && after[id] == tasks[id])
      && (forall i: nat :: i < |ts| ==>
            IdAt(start, i) !in tasks && IdAt(start, i) in after && after[IdAt(start, i)] == SyncRecord(ts[i], userId))
      && (forall i: nat, j: nat :: i < j < |ts| ==> IdAt(start, i) != IdAt(start, j))
  {
    var ws := Writes(ts, userId, start);
    WritesIds(ts, userId, start);
    FreshWrites(tasks, ws, start);
  }

  /** A task with a truthy `syncId` is never written. */
  lemma SyncedTasksSkipped(ts: seq<LocalTask>, t: LocalTask)
    requires t in ts && Present(t.syncId)
    ensures t !in Pending(ts)
  {
    PendingMembers(ts, t);
  }

  // ---------------------------------------------------------------------
  // mergeTasks

  function Abs(x: int): nat {
    if x < 0 then -x else x
  }

  /** The duplicate test of `mergeTasks`: same title exactly, creation times
      less than a minute apart. */
  predicate IsDuplicate(ft: Task, lt: LocalTask) {
    ft.title == lt.title && Abs(ft.createdAt - ParseTime(lt.createdAt)) < 60000
  }

  predicate HasDuplicate(fbs: seq<Task>, lt: LocalTask) {
    exists i :: 0 <= i < |fbs| && IsDuplicate(fbs[i], lt)
  }

  /** `firebaseTasks.find(...)`: the first cloud task that duplicates `lt`. */
  function Find(fbs: seq<Task>, lt: LocalTask): (r: Option<Task>)
    ensures r.Some? ==> r.value in fbs && IsDuplicate(r.value, lt)
    ensures r.None? <==> !HasDuplicate(fbs, lt)
    decreases |fbs|
  {
    if fbs == [] then None
    else if IsDuplicate(fbs[0], lt) then Some(fbs[0])
    else
      var r := Find(fbs[1..], lt);
      assert HasDuplicate(fbs[1..], lt) ==> HasDuplicate(fbs, lt) by {
        if HasDuplicate(fbs[1..], lt) {
          var i :| 0 <= i < |fbs[1..]| && IsDuplicate(fbs[1..][i], lt);
          assert IsDuplicate(fbs[i + 1], lt);
        }
      }
      assert HasDuplicate(fbs, lt) ==> HasDuplicate(fbs[1..], lt) by {
        if HasDuplicate(fbs, lt) {
          var i :| 0 <= i < |fbs| && IsDuplicate(fbs[i], lt);
          assert i > 0 && IsDuplicate(fbs[1..][i - 1], lt);
        }
      }
      r
  }

  /** A local task as appended: its converted data, its own id, no user yet. */
  function Appended(lt: LocalTask): (t: Task)
    ensures t.id == Some(lt.id) && t.userId == ""
    ensures DataOf(t) == ConvertLocalTaskToTask(lt)
  {
    TaskOf(ConvertLocalTaskToTask(lt), Some(lt.id), "")
  }

  /** The local tasks that are appended, converted, in input order. */
  function Fresh(fbs: seq<Task>, locals: seq<LocalTask>): seq<Task>
    decreases |locals|
  {
    if locals == [] then []
    else
      var lt := locals[|locals| - 1];
      Fresh(fbs, locals[..|locals| - 1]) + (if HasDuplicate(fbs, lt) then [] else [Appended(lt)])
  }

  /** The local tasks reported as conflicts, in input order. */
  function Conflicts(fbs: seq<Task>, locals: seq<LocalTask>): seq<LocalTask>
    decreases |locals|
  {
    if locals == [] then []
    else
      var lt := locals[|locals| - 1];
      Conflicts(fbs, locals[..|locals| - 1]) + (if HasDuplicate(fbs, lt) then [lt] else [])
  }

  /** `mergeTasks`: the cloud list followed by the local tasks no cloud task
      duplicates; the duplicated ones are returned as conflicts. */
  method MergeTasks(firebaseTasks: seq<Task>, localTasks: seq<LocalTask>) returns (mergedTasks: seq<Task>, conflicts: seq<LocalTask>)
    ensures mergedTasks == firebaseTasks + Fresh(firebaseTasks, localTasks)
    ensures mergedTasks[..|firebaseTasks|] == firebaseTasks
    ensures conflicts == Conflicts(firebaseTasks, localTasks)
  {
    mergedTasks := firebaseTasks;
    conflicts := [];
    var i := 0;
    while i < |localTasks|
      invariant 0 <= i <= |localTasks|
      invariant mergedTasks == firebaseTasks + Fresh(firebaseTasks, localTasks[..i])
      invariant conflicts == Conflicts(firebaseTasks, localTasks[..i])
    {
      var localTask := localTasks[i];
      assert localTasks[..i + 1][..i] == localTasks[..i];
      var duplicate := Find(firebaseTasks, localTask);
      if duplicate.None? {
        var taskData := ConvertLocalTaskToTask(localTask);
        mergedTasks := mergedTasks + [TaskOf(taskData, Some(localTask.id), "")];
      } else {
        conflicts := conflicts + [localTask];
      }
      i := i + 1;
    }
    assert localTasks[..i] == localTasks;
  }

  /** Each local task goes to exactly one side, so nothing is lost or added. */
  lemma {:induction false} MergeCounts(fbs: seq<Task>, locals: seq<LocalTask>)
    ensures |Fresh(fbs, locals)| + |Conflicts(fbs, locals)| == |locals|
    decreases |locals|
  {
    if locals != [] {
      MergeCounts(fbs, locals[..|locals| - 1]);
    }
  }

  /** A local task is a conflict exactly when some cloud task duplicates it. */
  lemma {:induction false} ConflictIff(fbs: seq<Task>, locals: seq<LocalTask>, lt: LocalTask)
    ensures lt in Conflicts(fbs, locals) <==> lt in locals && HasDuplicate(fbs, lt)
    decreases |locals|
  {
    if locals != [] {
      var init := locals[..|locals| - 1];
      ConflictIff(fbs, init, lt);
      assert locals == init + [locals[|locals| - 1]];
    }
  }

  /** What is appended is exactly the converted non-duplicated local tasks. */
  lemma {:induction false} FreshIff(fbs: seq<Task>, locals: seq<LocalTask>, t: Task)
    ensures t in Fresh(fbs, locals) <==> exists lt :: lt in locals && !HasDuplicate(fbs, lt) && t == Appended(lt)
    decreases |locals|
  {
    if locals != [] {
      var init := locals[..|locals| - 1];
      var last := locals[|locals| - 1];
      FreshIff(fbs, init, t);
      assert locals == init + [last];
      if t in Fresh(fbs, locals) && t !in Fresh(fbs, init) {
        assert !HasDuplicate(fbs, last) && t == Appended(last);
      }
    }
  }

  /** Local tasks are judged one by one, never against each other: the result
      for a concatenation is the concatenation of the results. */
  lemma MergeSplits(fbs: seq<Task>, a: seq<LocalTask>, b: seq<LocalTask>)
    ensures Fresh(fbs, a + b) == Fresh(fbs, a) + Fresh(fbs, b)
    ensures Conflicts(fbs, a + b) == Conflicts(fbs, a) + Conflicts(fbs, b)
  {
    FreshSplits(fbs, a, b);
    ConflictsSplits(fbs, a, b);
  }

  lemma {:induction false} FreshSplits(fbs: seq<Task>, a: seq<LocalTask>, b: seq<LocalTask>)
    ensures Fresh(fbs, a + b) == Fresh(fbs, a) + Fresh(fbs, b)
    decreases |b|
  {
    if b == [] {
      assert a + b == a;
    } else {
      var init := b[..|b| - 1];
      FreshSplits(fbs, a, init);
      assert (a + b)[..|a + b| - 1] == a + init;
      assert (a + b)[|a + b| - 1] == b[|b| - 1];
    }
  }

  lemma {:induction false} ConflictsSplits(fbs: seq<Task>, a: seq<LocalTask>, b: seq<LocalTask>)
    ensures Conflicts(fbs, a + b) == Conflicts(fbs, a) + Conflicts(fbs, b)
    decreases |b|
  {
    if b == [] {
      assert a + b == a;
    } else {
      var init := b[..|b| - 1];
      ConflictsSplits(fbs, a, init);
      assert (a + b)[..|a + b| - 1] == a + init;
      assert (a + b)[|a + b| - 1] == b[|b| - 1];
    }
  }

  /** The one-minute window is strict: exactly 60 000 ms apart is not a duplicate. */
  lemma WindowIsStrict(ft: Task, lt: LocalTask)
    requires ParseTime(lt.createdAt) == ft.createdAt + 60000 || ParseTime(lt.createdAt) == ft.createdAt - 60000
    ensures !IsDuplicate(ft, lt)
  {
  }
}
