/** The task state holder: the signed-in user's task list as the live query
    last delivered it, the create/update/delete actions guarded by
    authentication, the offline queue that a failed create appends to, and
    its replay. The cloud store and the device store are passed in; the
    success of every remote call and the clock are parameters. */
module TaskContext {
  import opened Common
  import opened Json
  import opened Firestore
  import opened DeviceStorage

  /** The device-store key of the offline queue. */
  const OfflineTasksKey := "@TodoApp:offlineTasks"

  /** What a screen passes to `addTask`: a task without id, owner and timestamps. */
  datatype TaskInput = TaskInput(
    title: string,
    description: Option<string>,
    completed: bool,
    priority: string,
    category: string,
    dueDate: Option<Time>)

  /** Why an action was rejected. */
  datatype TaskError =
    | NotAuthenticated
    | Store(storeError: StoreError)
    | Storage(storageError: StorageError)
    | Syntax

  /** `{...taskData, userId}`: the argument of `createTask` in `addTask`. */
  function WithOwner(d: TaskInput, userId: string): NewTask {
    NewTask(Some(userId), d.title, d.description, d.completed, d.priority, d.category, d.dueDate)
  }

  // ---------------------------------------------------------------------
  // The offline queue: a JSON array of task objects under one key

  /** A due date as `JSON.stringify` writes it: the timestamp text, or `null`. */
  function DueJson(d: Option<Time>): Scalar {
    if d.Some? then JStr(TimeToString(d.value)) else JNull
  }

  /** The queue entry for a task whose creation failed:
      `{...taskData, userId, tempId}`. */
  function Entry(d: TaskInput, userId: string, tempId: string): Object {
    var o := PutOpt(Put([], "title", JStr(d.title)), "description", d.description);
    var o := Put(Put(Put(o, "completed", JBool(d.completed)), "priority", JStr(d.priority)), "category", JStr(d.category));
    Put(Put(Put(o, "dueDate", DueJson(d.dueDate)), "userId", JStr(userId)), "tempId", JStr(tempId))
  }

  /** The queue as `addTask` reads it: an empty or missing entry is the empty
      queue, anything else must parse. */
  function Queue(entries: map<string, string>): Option<seq<Object>> {
    if OfflineTasksKey in entries && entries[OfflineTasksKey] != "" then Parse(entries[OfflineTasksKey])
    else Some([])
  }

  /** The device store after a failed create: the entry appended to the
      queue, unless reading the queue fails, its text does not parse, or
      writing it back fails, in which case nothing changes. */
  function QueueOnFailure(entries: map<string, string>, data: TaskInput, userId: string, now: Time,
                          readFails: bool, writeFails: bool): (after: map<string, string>)
    ensures !readFails && !writeFails && Queue(entries).Some? ==>
      Queue(after) == Some(Queue(entries).value + [Entry(data, userId, TimeToString(now))])
    ensures forall k :: k != OfflineTasksKey ==> (k in after <==> k in entries) && (k in after ==> after[k] == entries[k])
  {
    if readFails || writeFails || Queue(entries).None? then entries
    else
      QueueAfterAppend(entries, Queue(entries).value, Entry(data, userId, TimeToString(now)));
      entries[OfflineTasksKey := Stringify(Queue(entries).value + [Entry(data, userId, TimeToString(now))])]
  }

  /** Writing back the queue with one more entry: the queue reads back as the
      earlier entries, in order, followed by the new one. */
  lemma QueueAfterAppend(entries: map<string, string>, queued: seq<Object>, e: Object)
    ensures Queue(entries[OfflineTasksKey := Stringify(queued + [e])]) == Some(queued + [e])
  {
    ParseStringify(queued + [e]);
    assert Stringify(queued + [e])[0] == '[';
  }

  /** The task `syncOfflineTasks` re-creates from a queued object, with its
      defaults: not completed, priority `medium`, category `Other`, no due
      date unless a non-empty one is stored, and no owner. */
  function ReplayTask(o: Object): NewTask {
    var due := GetStr(o, "dueDate");
    NewTask(
      None,
      GetStr(o, "title").GetOr(""),
      GetStr(o, "description"),
      GetBool(o, "completed") == Some(true),
      OptOr(GetStr(o, "priority"), "medium"),
      OptOr(GetStr(o, "category"), "Other"),
      if Present(due) then Some(ParseTime(due.value)) else None)
  }

  /** The member each key of a queue entry holds. */
  lemma LookupEntry(d: TaskInput, userId: string, tempId: string, key: string)
    ensures Lookup(Entry(d, userId, tempId), key) ==
      if key == "tempId" then Some(JStr(tempId))
      else if key == "userId" then Some(JStr(userId))
      else if key == "dueDate" then Some(DueJson(d.dueDate))
      else if key == "category" then Some(JStr(d.category))
      else if key == "priority" then Some(JStr(d.priority))
      else if key == "completed" then Some(JBool(d.completed))
      else if key == "description" then OptScalar(d.description)
      else if key == "title" then Some(JStr(d.title))
      else None
  {
    var o0: Object := [];
    var o1 := Put(o0, "title", JStr(d.title));
    var o2 := PutOpt(o1, "description", d.description);
    var o3 := Put(o2, "completed", JBool(d.completed));
    var o4 := Put(o3, "priority", JStr(d.priority));
    var o5 := Put(o4, "category", JStr(d.category));
    var o6 := Put(o5, "dueDate", DueJson(d.dueDate));
    var o7 := Put(o6, "userId", JStr(userId));
    assert Entry(d, userId, tempId) == Put(o7, "tempId", JStr(tempId));
    LookupPut(o0, "title", JStr(d.title), key);
    LookupPutOpt(o1, "description", d.description, key);
    LookupPut(o2, "completed", JBool(d.completed), key);
    LookupPut(o3, "priority", JStr(d.priority), key);
    LookupPut(o4, "category", JStr(d.category), key);
    LookupPut(o5, "dueDate", DueJson(d.dueDate), key);
    LookupPut(o6, "userId", JStr(userId), key);
    LookupPut(o7, "tempId", JStr(tempId), key);
  }

  /** Replaying a queued entry re-creates the task that was queued, except
      that the owner is dropped and an empty priority or category falls
      back to its default. */
  lemma ReplayEntry(d: TaskInput, userId: string, tempId: string)
    ensures ReplayTask(Entry(d, userId, tempId)) ==
      NewTask(None, d.title, d.description, d.completed, OrElse(d.priority, "medium"),
              OrElse(d.category, "Other"), d.dueDate)
  {
    var o := Entry(d, userId, tempId);
    LookupEntry(d, userId, tempId, "title");
    LookupEntry(d, userId, tempId, "description");
    LookupEntry(d, userId, tempId, "completed");
    LookupEntry(d, userId, tempId, "priority");
    LookupEntry(d, userId, tempId, "category");
    LookupEntry(d, userId, tempId, "dueDate");
    if d.dueDate.Some? {
      TimeStringRoundTrip(d.dueDate.value);
    }
  }

  /** An object with none of the task's properties replays as the defaults. */
  lemma ReplayDefaults(o: Object)
    requires forall i :: 0 <= i < |o| ==> o[i].0 !in {"title", "description", "completed", "priority", "category", "dueDate"}
    ensures ReplayTask(o) == NewTask(None, "", None, false, "medium", "Other", None)
  {
    LookupAbsent(o, "title");
    LookupAbsent(o, "description");
    LookupAbsent(o, "completed");
    LookupAbsent(o, "priority");
    LookupAbsent(o, "category");
    LookupAbsent(o, "dueDate");
  }

  lemma {:induction false} LookupAbsent(o: Object, key: string)
    requires forall i :: 0 <= i < |o| ==> o[i].0 != key
    ensures Lookup(o, key) == None
    decreases |o|
  {
    if o != [] {
      LookupAbsent(o[..|o| - 1], key);
    }
  }

  /** The record `createTask` would write for each queued object. */
  function ReplayRecords(os: seq<Object>, now: Time): (rs: seq<Record>)
    ensures |rs| == |os|
    decreases |os|
  {
    if os == [] then [] else ReplayRecords(os[..|os| - 1], now) + [CreateRecord(ReplayTask(os[|os| - 1]), now)]
  }

  lemma {:induction false} ReplayRecordAt(os: seq<Object>, now: Time, i: nat)
    requires i < |os|
    ensures ReplayRecords(os, now)[i] == CreateRecord(ReplayTask(os[i]), now)
    decreases |os|
  {
    if i < |os| - 1 {
      ReplayRecordAt(os[..|os| - 1], now, i);
    }
  }

  /** The writes the replay makes: one per record whose `createTask`
      succeeds (an index outside `failing`), each on the next new id. */
  function Created(rs: seq<Record>, failing: set<nat>, start: nat): (ws: seq<(string, Record)>)
    ensures |ws| <= |rs|
    decreases |rs|
  {
    if rs == [] then []
    else
      var prev := Created(rs[..|rs| - 1], failing, start);
      if |rs| - 1 in failing then prev
      else prev + [(DocId(start + |prev|), rs[|rs| - 1])]
  }

  /** A failing create adds nothing. */
  lemma CreatedSkip(rs: seq<Record>, i: nat, failing: set<nat>, start: nat)
    requires i < |rs| && i in failing
    ensures Created(rs[..i + 1], failing, start) == Created(rs[..i], failing, start)
  {
    assert rs[..i + 1][..i] == rs[..i];
  }

  /** A succeeding create adds its record on the next id. */
  lemma CreatedStep(rs: seq<Record>, i: nat, failing: set<nat>, start: nat)
    requires i < |rs| && i !in failing
    ensures var prev := Created(rs[..i], failing, start);
      Created(rs[..i + 1], failing, start) == prev + [(DocId(start + |prev|), rs[i])]
  {
    assert rs[..i + 1][..i] == rs[..i];
  }

  /** When every create succeeds, the `i`-th record lands on the `i`-th new id. */
  lemma {:induction false} CreatedAllSucceed(rs: seq<Record>, start: nat)
    ensures |Created(rs, {}, start)| == |rs|
    ensures forall i :: 0 <= i < |rs| ==> Created(rs, {}, start)[i] == (DocId(start + i), rs[i])
    decreases |rs|
  {
    if rs != [] {
      var n := |rs| - 1;
      var prev := Created(rs[..n], {}, start);
      CreatedAllSucceed(rs[..n], start);
      var ws := prev + [(DocId(start + n), rs[n])];
      assert Created(rs, {}, start) == ws;
      forall i | 0 <= i < |rs|
        ensures ws[i] == (DocId(start + i), rs[i])
      {
        if i < n {
          assert rs[..n][i] == rs[i];
        }
      }
    }
  }

  /** Every write carries one of the records. */
  lemma {:induction false} CreatedFrom(rs: seq<Record>, failing: set<nat>, start: nat)
    ensures forall j :: 0 <= j < |Created(rs, failing, start)| ==>
      exists i :: 0 <= i < |rs| && Created(rs, failing, start)[j].1 == rs[i]
    decreases |rs|
  {
    if rs != [] {
      var n := |rs| - 1;
      CreatedFrom(rs[..n], failing, start);
      var prev := Created(rs[..n], failing, start);
      var ws := Created(rs, failing, start);
      forall j | 0 <= j < |ws|
        ensures exists i :: 0 <= i < |rs| && ws[j].1 == rs[i]
      {
        if j < |prev| {
          var i :| 0 <= i < n && prev[j].1 == rs[..n][i];
          assert ws[j] == prev[j];
          assert rs[..n][i] == rs[i];
        } else {
          assert ws[j].1 == rs[n];
        }
      }
    } else {
      assert Created(rs, failing, start) == [];
    }
  }

  /** No replayed document has an owner: the replay writes no `userId`. */
  lemma ReplaysUnowned(os: seq<Object>, failing: set<nat>, start: nat, now: Time)
    ensures var ws := Created(ReplayRecords(os, now), failing, start);
      forall j :: 0 <= j < |ws| ==> "userId" !in ws[j].1
  {
    var rs := ReplayRecords(os, now);
    var ws := Created(rs, failing, start);
    CreatedFrom(rs, failing, start);
    forall j | 0 <= j < |ws|
      ensures "userId" !in ws[j].1
    {
      var i :| 0 <= i < |rs| && ws[j].1 == rs[i];
      ReplayRecordAt(os, now, i);
      CreateRecordFields(ReplayTask(os[i]), now);
    }
  }

  /** The first task of the list with the given id (`tasks.find`). */
  function FindTask(tasks: seq<Task>, taskId: string): (r: Option<Task>)
    ensures r.None? <==> forall i :: 0 <= i < |tasks| ==> tasks[i].id != Some(taskId)
    ensures r.Some? ==> exists i :: 0 <= i < |tasks| && tasks[i] == r.value && r.value.id == Some(taskId)
                                   && (forall j :: 0 <= j < i ==> tasks[j].id != Some(taskId))
    decreases |tasks|
  {
    if tasks == [] then None
    else if tasks[0].id == Some(taskId) then Some(tasks[0])
    else
      var r := FindTask(tasks[1..], taskId);
      assert forall i :: 1 <= i < |tasks| ==> tasks[1..][i - 1] == tasks[i];
      r
  }

  /** The update `toggleTaskComplete` sends changes `completed` and the
      update time, and nothing else. */
  lemma ToggleData(completed: bool, now: Time)
    ensures UpdateData(map["completed" := Bool(!completed)], now) == map["completed" := Bool(!completed), "updatedAt" := Stamp(now)]
  {
    var d := UpdateData(map["completed" := Bool(!completed)], now);
    assert d.Keys == {"completed", "updatedAt"};
  }

  /** The loop of `syncOfflineTasks`: `createTask` on every queued object
      with the replay defaults, a failing call logged and skipped. */
  method ReplayAll(db: Database, offlineTasks: seq<Object>, now: Time, failing: set<nat>)
    requires db.Valid()
    modifies db
    ensures db.Valid() && db.users == old(db.users)
    ensures db.tasks == ApplyWrites(old(db.tasks), Created(ReplayRecords(offlineTasks, now), failing, old(db.nextId)))
    ensures db.nextId == old(db.nextId) + |Created(ReplayRecords(offlineTasks, now), failing, old(db.nextId))|
  {
    ghost var records := ReplayRecords(offlineTasks, now);
    ghost var start := db.nextId;
    var i := 0;
    while i < |offlineTasks|
      invariant 0 <= i <= |offlineTasks|
      invariant db.Valid() && db.users == old(db.users)
      invariant db.nextId == start + |Created(records[..i], failing, start)|
      invariant db.tasks == ApplyWrites(old(db.tasks), Created(records[..i], failing, start))
    {
      ReplayAt(db, offlineTasks, i, now, i in failing);
      if i in failing {
        CreatedSkip(records, i, failing, start);
      } else {
        ReplayedStep(old(db.tasks), records, i, failing, start);
      }
      i := i + 1;
    }
    assert records[..i] == records;
  }

  /** One pass of the loop body: `createTask` on the `i`-th queued object
      with the replay defaults; a failing call writes nothing. */
  method ReplayAt(db: Database, os: seq<Object>, i: nat, now: Time, fail: bool)
    requires db.Valid() && i < |os|
    modifies db
    ensures db.Valid() && db.users == old(db.users)
    ensures fail ==> db.tasks == old(db.tasks) && db.nextId == old(db.nextId)
    ensures !fail ==> db.tasks == old(db.tasks)[DocId(old(db.nextId)) := ReplayRecords(os, now)[i]]
    ensures !fail ==> db.nextId == old(db.nextId) + 1
  {
    ReplayRecordAt(os, now, i);
    var _ := db.CreateTask(ReplayTask(os[i]), now, fail);
  }

  /** The store after one more successful create: the record lands on the
      next id, and one more write has been made. */
  lemma ReplayedStep(tasks: map<string, Record>, rs: seq<Record>, i: nat, failing: set<nat>, start: nat)
    requires i < |rs| && i !in failing
    ensures var prev := Created(rs[..i], failing, start);
      && |Created(rs[..i + 1], failing, start)| == |prev| + 1
      && ApplyWrites(tasks, Created(rs[..i + 1], failing, start)) ==
         ApplyWrites(tasks, prev)[DocId(start + |prev|) := rs[i]]
  {
    var prev := Created(rs[..i], failing, start);
    CreatedStep(rs, i, failing, start);
    ApplyWritesSnoc(tasks, prev, (DocId(start + |prev|), rs[i]));
  }

  class TaskProvider {
    /** The signed-in user's id, as the auth context last reported it. */
    var user: Option<string>
    var tasks: seq<Task>
    var loading: bool
    /** The user whose task query is subscribed, if any. */
    var listening: Option<string>

    constructor ()
      ensures user == None && tasks == [] && loading && listening == None
    {
      user := None;
      tasks := [];
      loading := true;
      listening := None;
    }

    /** The effect run whenever the user changes: without a user the list is
        emptied and loading ends; with one the user's query is subscribed. */
    method UserChanged(newUser: Option<string>)
      modifies this
      ensures user == newUser
      ensures newUser.None? ==> tasks == [] && !loading && listening == None
      ensures newUser.Some? ==> tasks == old(tasks) && loading == old(loading) && listening == newUser
    {
      user := newUser;
      if newUser.None? {
        tasks := [];
        loading := false;
        listening := None;
        return;
      }
      listening := newUser;
    }

    /** The subscription's callback: the list is replaced wholesale, loading
        ends, and the offline queue's key is removed (a failed removal is
        not awaited and changes nothing). */
    method OnSnapshot(newTasks: seq<Task>, storage: Store, removeFails: bool)
      modifies this, storage
      ensures tasks == newTasks && !loading
      ensures user == old(user) && listening == old(listening)
      ensures removeFails ==> storage.entries == old(storage.entries)
      ensures !removeFails ==> storage.entries == old(storage.entries) - {OfflineTasksKey}
    {
      tasks := newTasks;
      loading := false;
      var _ := storage.RemoveItem(OfflineTasksKey, removeFails);
    }

    /** `addTask`: creates the task for the user. When the create fails, the
        entry is appended to the offline queue and the create's error is
        rethrown; reading or writing the queue can fail in its stead. */
    method AddTask(db: Database, storage: Store, data: TaskInput, now: Time, createFails: bool, readFails: bool, writeFails: bool)
      returns (r: Outcome<TaskError>)
      requires db.Valid()
      modifies db, storage
      ensures db.Valid() && db.users == old(db.users)
      ensures user.None? ==> r == Fail(NotAuthenticated) && db.tasks == old(db.tasks) && storage.entries == old(storage.entries)
      ensures user.Some? && !createFails ==>
        && r == Pass
        && DocId(old(db.nextId)) !in old(db.tasks)
        && db.tasks == old(db.tasks)[DocId(old(db.nextId)) := CreateRecord(WithOwner(data, user.value), now)]
        && storage.entries == old(storage.entries)
      ensures user.Some? && createFails ==> db.tasks == old(db.tasks)
      ensures user.Some? && createFails ==>
        storage.entries == QueueOnFailure(old(storage.entries), data, user.value, now, readFails, writeFails)
      ensures user.Some? && createFails && (readFails || Queue(old(storage.entries)).None? || writeFails) ==>
        storage.entries == old(storage.entries)
      ensures user.Some? && createFails && readFails ==> r == Fail(Storage(StorageUnavailable))
      ensures user.Some? && createFails && !readFails && Queue(old(storage.entries)).None? ==> r == Fail(Syntax)
      ensures user.Some? && createFails && !readFails && Queue(old(storage.entries)).Some? ==>
        if writeFails then r == Fail(Storage(StorageUnavailable))
        else
          && r == Fail(Store(Unavailable))
          && storage.entries == old(storage.entries)[OfflineTasksKey :=
               Stringify(Queue(old(storage.entries)).value + [Entry(data, user.value, TimeToString(now))])]
    {
      if user.None? {
        return Fail(NotAuthenticated);
      }
      var created := db.CreateTask(WithOwner(data, user.value), now, createFails);
      if created.Ok? {
        return Pass;
      }
      var read := storage.GetItem(OfflineTasksKey, readFails);
      if read.Err? {
        return Fail(Storage(read.error));
      }
      var queued: seq<Object> := [];
      if read.value.Some? && read.value.value != "" {
        var parsed := Parse(read.value.value);
        if parsed.None? {
          return Fail(Syntax);
        }
        queued := parsed.value;
      }
      queued := queued + [Entry(data, user.value, TimeToString(now))];
      var written := storage.SetItem(OfflineTasksKey, Stringify(queued), writeFails);
      if written.Fail? {
        return Fail(Storage(written.error));
      }
      r := Fail(Store(created.error));
    }

    /** `handleUpdateTask`: the store's update, behind the authentication guard. */
    method UpdateTask(db: Database, taskId: string, updates: Record, now: Time, fail: bool) returns (r: Outcome<TaskError>)
      requires db.Valid()
      modifies db
      ensures db.Valid() && db.users == old(db.users) && db.nextId == old(db.nextId)
      ensures user.None? ==> r == Fail(NotAuthenticated) && db.tasks == old(db.tasks)
      ensures user.Some? && fail ==> r == Fail(Store(Unavailable)) && db.tasks == old(db.tasks)
      ensures user.Some? && !fail && taskId !in old(db.tasks) ==> r == Fail(Store(NotFound)) && db.tasks == old(db.tasks)
      ensures user.Some? && !fail && taskId in old(db.tasks) ==>
        r == Pass && db.tasks == old(db.tasks)[taskId := old(db.tasks)[taskId] + UpdateData(updates, now)]
    {
      if user.None? {
        return Fail(NotAuthenticated);
      }
      var updated := db.UpdateTask(taskId, updates, now, fail);
      if updated.Err? {
        return Fail(Store(updated.error));
      }
      r := Pass;
    }

    /** `handleDeleteTask`: the store's delete, behind the authentication guard. */
    method DeleteTask(db: Database, taskId: string, fail: bool) returns (r: Outcome<TaskError>)
      requires db.Valid()
      modifies db
      ensures db.Valid() && db.users == old(db.users) && db.nextId == old(db.nextId)
      ensures user.None? ==> r == Fail(NotAuthenticated) && db.tasks == old(db.tasks)
      ensures user.Some? && fail ==> r == Fail(Store(Unavailable)) && db.tasks == old(db.tasks)
      ensures user.Some? && !fail ==> r == Pass && db.tasks == old(db.tasks) - {taskId}
    {
      if user.None? {
        return Fail(NotAuthenticated);
      }
      var deleted := db.DeleteTask(taskId, fail);
      if deleted.Fail? {
        return Fail(Store(deleted.error));
      }
      r := Pass;
    }

    /** `toggleTaskComplete`: for a task in the list, one update flipping its
        `completed`; for an id not in the list, nothing at all. */
    method ToggleTaskComplete(db: Database, taskId: string, now: Time, fail: bool) returns (r: Outcome<TaskError>)
      requires db.Valid()
      modifies db
      ensures db.Valid() && db.users == old(db.users) && db.nextId == old(db.nextId)
      ensures FindTask(tasks, taskId).None? ==> r == Pass && db.tasks == old(db.tasks)
      ensures FindTask(tasks, taskId).Some? && (user.None? || fail || taskId !in old(db.tasks)) ==>
        r.Fail? && db.tasks == old(db.tasks)
      ensures FindTask(tasks, taskId).Some? && user.Some? && !fail && taskId in old(db.tasks) ==>
        var flipped := !FindTask(tasks, taskId).value.completed;
        r == Pass && db.tasks == old(db.tasks)[taskId := old(db.tasks)[taskId]["completed" := Bool(flipped)]["updatedAt" := Stamp(now)]]
    {
      var task := FindTask(tasks, taskId);
      if task.None? {
        return Pass;
      }
      ToggleData(task.value.completed, now);
      r := UpdateTask(db, taskId, map["completed" := Bool(!task.value.completed)], now, fail);
      if taskId in old(db.tasks) {
        var before := old(db.tasks)[taskId];
        assert before + map["completed" := Bool(!task.value.completed), "updatedAt" := Stamp(now)]
            == before["completed" := Bool(!task.value.completed)]["updatedAt" := Stamp(now)];
      }
    }

    /** `syncOfflineTasks`: without a user, a readable queue or a parsable
        one, nothing happens. Otherwise every queued object is re-created with
        the replay defaults, a failing create is skipped, and the key is
        removed afterwards. Nothing is ever rethrown. */
    method SyncOfflineTasks(db: Database, storage: Store, now: Time, readFails: bool, failing: set<nat>, removeFails: bool)
      requires db.Valid()
      modifies db, storage
      ensures db.Valid() && db.users == old(db.users)
      ensures var entries := old(storage.entries);
        user.None? || readFails || OfflineTasksKey !in entries || entries[OfflineTasksKey] == "" || Queue(entries).None? ==>
        db.tasks == old(db.tasks) && storage.entries == entries
      ensures var entries := old(storage.entries);
        user.Some? && !readFails && OfflineTasksKey in entries && entries[OfflineTasksKey] != "" && Queue(entries).Some? ==>
        && db.tasks == ApplyWrites(old(db.tasks), Created(ReplayRecords(Queue(entries).value, now), failing, old(db.nextId)))
        && storage.entries == if removeFails then entries else entries - {OfflineTasksKey}
    {
      if user.None? {
        return;
      }
      var read := storage.GetItem(OfflineTasksKey, readFails);
      if read.Err? || read.value.None? || read.value.value == "" {
        return;
      }
      var parsed := Parse(read.value.value);
      if parsed.None? {
        return;
      }
      assert Queue(old(storage.entries)) == parsed;
      ReplayAll(db, parsed.value, now, failing);
      var _ := storage.RemoveItem(OfflineTasksKey, removeFails);
    }
  }
}
