/** The device-side task records (`LocalTask`): their conversion to and from
    the cloud `Task` shape, and the `@tasks_local` entry of the device store
    that holds them as JSON text. */
module LocalStorage {
  import opened Common
  import opened Json
  import opened DeviceStorage
  import opened Firestore

  const TasksKey := "@tasks_local"

  /** A task kept on the device. Timestamps are strings in the
      `toISOString` form; `syncId` is not declared by the record type but is
      read by the migration, so it is part of the stored record. */
  datatype LocalTask = LocalTask(
    id: string,
    title: string,
    description: Option<string>,
    completed: bool,
    priority: string,
    category: string,
    dueDate: Nullable<string>,
    createdAt: string,
    updatedAt: string,
    syncId: Option<string>)

  /** `Omit<Task, 'userId'>` as `convertLocalTaskToTask` builds it: no id either. */
  datatype TaskData = TaskData(
    title: string,
    description: Option<string>,
    completed: bool,
    priority: string,
    category: string,
    dueDate: Option<Time>,
    createdAt: Time,
    updatedAt: Time)

  /** The `TaskData` fields of a task. */
  function DataOf(t: Task): TaskData {
    TaskData(t.title, t.description, t.completed, t.priority, t.category, t.dueDate, t.createdAt, t.updatedAt)
  }

  /** `{ ...data, id, userId }`. */
  function TaskOf(d: TaskData, id: Option<string>, userId: string): (t: Task)
    ensures DataOf(t) == d && t.id == id && t.userId == userId
  {
    Task(id, userId, d.title, d.description, d.completed, d.priority, d.category, d.dueDate, d.createdAt, d.updatedAt)
  }

  /** A `dueDate` string that is truthy, that is, one that is parsed. */
  predicate HasDueText(d: Nullable<string>) {
    d.Defined? && d.value != ""
  }

  /** `convertLocalTaskToTask`. */
  function ConvertLocalTaskToTask(t: LocalTask): TaskData {
    TaskData(
      t.title, t.description, t.completed, t.priority, t.category,
      if HasDueText(t.dueDate) then Some(ParseTime(t.dueDate.value)) else None,
      ParseTime(t.createdAt), ParseTime(t.updatedAt))
  }

  /** An absent, `null` or empty `dueDate` becomes `null`; any other is parsed. */
  lemma ConvertedDueDate(t: LocalTask)
    ensures ConvertLocalTaskToTask(t).dueDate.None? <==> (t.dueDate == Absent || t.dueDate == Nil || t.dueDate == Defined(""))
    ensures t.dueDate.Defined? && t.dueDate.value != "" ==> ConvertLocalTaskToTask(t).dueDate == Some(ParseTime(t.dueDate.value))
  {
  }

  /** `convertTaskToLocalTask(task, id)` with `Date.now()` as `now`: the id is
      the first truthy one of the argument, the task's id and the time. */
  function ConvertTaskToLocalTask(task: Task, id: Option<string>, now: Time): (r: LocalTask)
    ensures r.id != ""
    ensures Present(id) ==> r.id == id.value
    ensures !Present(id) && Present(task.id) ==> r.id == task.id.value
    ensures !Present(id) && !Present(task.id) ==> r.id == TimeToString(now)
    ensures r.syncId.None?
  {
    LocalTask(
      if Present(id) then id.value else OptOr(task.id, TimeToString(now)),
      task.title, task.description, task.completed, task.priority, task.category,
      if task.dueDate.Some? then Defined(TimeToString(task.dueDate.value)) else Nil,
      TimeToString(task.createdAt), TimeToString(task.updatedAt), None)
  }

  /** A local record that the conversion pair reproduces exactly. */
  predicate Canonical(t: LocalTask) {
    && t.id != ""
    && (t.dueDate == Nil || (HasDueText(t.dueDate) && IsTimeString(t.dueDate.value)))
    && IsTimeString(t.createdAt) && IsTimeString(t.updatedAt)
    && t.syncId.None?
  }

  /** Local record to task and back, with the record's own id, is the identity. */
  lemma LocalTaskRoundTrip(t: LocalTask, userId: string, now: Time)
    requires Canonical(t)
    ensures ConvertTaskToLocalTask(TaskOf(ConvertLocalTaskToTask(t), None, userId), Some(t.id), now) == t
  {
  }

  /** Task to local record and back keeps every field but the ids. */
  lemma TaskRoundTrip(task: Task, id: Option<string>, now: Time)
    ensures ConvertLocalTaskToTask(ConvertTaskToLocalTask(task, id, now)) == DataOf(task)
  {
    TimeStringRoundTrip(task.createdAt);
    TimeStringRoundTrip(task.updatedAt);
    if task.dueDate.Some? {
      TimeStringRoundTrip(task.dueDate.value);
    }
  }

  /** What the conversion produces is always a record the pair reproduces. */
  lemma ConvertedIsCanonical(task: Task, id: Option<string>, now: Time)
    ensures Canonical(ConvertTaskToLocalTask(task, id, now))
  {
    TimeStringRoundTrip(task.createdAt);
    TimeStringRoundTrip(task.updatedAt);
    if task.dueDate.Some? {
      TimeStringRoundTrip(task.dueDate.value);
    }
  }

  // ---------------------------------------------------------------------
  // JSON form of a local record

  function ToJson(t: LocalTask): Object {
    var o := Put(Put([], "id", JStr(t.id)), "title", JStr(t.title));
    var o := PutOpt(o, "description", t.description);
    var o := Put(Put(Put(o, "completed", JBool(t.completed)), "priority", JStr(t.priority)), "category", JStr(t.category));
    var o := PutNullable(o, "dueDate", t.dueDate);
    var o := Put(Put(o, "createdAt", JStr(t.createdAt)), "updatedAt", JStr(t.updatedAt));
    PutOpt(o, "syncId", t.syncId)
  }

  /** The local record an object describes, if it has the record's shape. */
  function FromJson(o: Object): Option<LocalTask> {
    var id, title := GetStr(o, "id"), GetStr(o, "title");
    var description, completed := GetOptStr(o, "description"), GetBool(o, "completed");
    var priority, category := GetStr(o, "priority"), GetStr(o, "category");
    var dueDate, createdAt := GetNullable(o, "dueDate"), GetStr(o, "createdAt");
    var updatedAt, syncId := GetStr(o, "updatedAt"), GetOptStr(o, "syncId");
    if id.Some? && title.Some? && description.Some? && completed.Some? && priority.Some?
       && category.Some? && dueDate.Some? && createdAt.Some? && updatedAt.Some? && syncId.Some?
    then Some(LocalTask(id.value, title.value, description.value, completed.value, priority.value,
                        category.value, dueDate.value, createdAt.value, updatedAt.value, syncId.value))
    else None
  }

  /** The member each key of a local record's object holds. */
  lemma LookupToJson(t: LocalTask, key: string)
    ensures Lookup(ToJson(t), key) ==
      if key == "syncId" then OptScalar(t.syncId)
      else if key == "updatedAt" then Some(JStr(t.updatedAt))
      else if key == "createdAt" then Some(JStr(t.createdAt))
      else if key == "dueDate" then NullableScalar(t.dueDate)
      else if key == "category" then Some(JStr(t.category))
      else if key == "priority" then Some(JStr(t.priority))
      else if key == "completed" then Some(JBool(t.completed))
      else if key == "description" then OptScalar(t.description)
      else if key == "title" then Some(JStr(t.title))
      else if key == "id" then Some(JStr(t.id))
      else None
  {
    var o0: Object := [];
    var o1 := Put(o0, "id", JStr(t.id));
    var o2 := Put(o1, "title", JStr(t.title));
    var o3 := PutOpt(o2, "description", t.description);
    var o4 := Put(o3, "completed", JBool(t.completed));
    var o5 := Put(o4, "priority", JStr(t.priority));
    var o6 := Put(o5, "category", JStr(t.category));
    var o7 := PutNullable(o6, "dueDate", t.dueDate);
    var o8 := Put(o7, "createdAt", JStr(t.createdAt));
    var o9 := Put(o8, "updatedAt", JStr(t.updatedAt));
    assert ToJson(t) == PutOpt(o9, "syncId", t.syncId);
    LookupPut(o0, "id", JStr(t.id), key);
    LookupPut(o1, "title", JStr(t.title), key);
    LookupPutOpt(o2, "description", t.description, key);
    LookupPut(o3, "completed", JBool(t.completed), key);
    LookupPut(o4, "priority", JStr(t.priority), key);
    LookupPut(o5, "category", JStr(t.category), key);
    LookupPutNullable(o6, "dueDate", t.dueDate, key);
    LookupPut(o7, "createdAt", JStr(t.createdAt), key);
    LookupPut(o8, "updatedAt", JStr(t.updatedAt), key);
    LookupPutOpt(o9, "syncId", t.syncId, key);
  }

  /** The object form of a local record reads back as that record. */
  lemma FromToJson(t: LocalTask)
    ensures FromJson(ToJson(t)) == Some(t)
  {
    var o := ToJson(t);
    LookupToJson(t, "id");
    LookupToJson(t, "title");
    LookupToJson(t, "description");
    LookupToJson(t, "completed");
    LookupToJson(t, "priority");
    LookupToJson(t, "category");
    LookupToJson(t, "dueDate");
    LookupToJson(t, "createdAt");
    LookupToJson(t, "updatedAt");
    LookupToJson(t, "syncId");
  }

  // ---------------------------------------------------------------------
  // The `@tasks_local` entry

  function ToJsonAll(ts: seq<LocalTask>): (os: seq<Object>)
    ensures |os| == |ts|
    decreases |ts|
  {
    if ts == [] then [] else [ToJson(ts[0])] + ToJsonAll(ts[1..])
  }

  /** Every object read as a local record, or `None` if one does not fit. */
  function FromJsonAll(os: seq<Object>): Option<seq<LocalTask>>
    decreases |os|
  {
    if os == [] then Some([])
    else match (FromJson(os[0]), FromJsonAll(os[1..]))
      case (Some(t), Some(ts)) => Some([t] + ts)
      case _ => None
  }

  lemma {:induction false} FromToJsonAll(ts: seq<LocalTask>)
    ensures FromJsonAll(ToJsonAll(ts)) == Some(ts)
    decreases |ts|
  {
    if ts != [] {
      FromToJson(ts[0]);
      FromToJsonAll(ts[1..]);
      assert ToJsonAll(ts)[1..] == ToJsonAll(ts[1..]);
      assert [ts[0]] + ts[1..] == ts;
    }
  }

  /** `JSON.stringify(tasks)`. */
  function SavedText(ts: seq<LocalTask>): string {
    Stringify(ToJsonAll(ts))
  }

  /** What `loadLocalTasks` returns for a store that answers: the parsed
      records, or `[]` when the key is missing or empty or the text does not
      parse. */
  function Loaded(entries: map<string, string>): seq<LocalTask> {
    if TasksKey !in entries || entries[TasksKey] == "" then []
    else match Parse(entries[TasksKey])
      case None => []
      case Some(os) => FromJsonAll(os).GetOr([])
  }

  /** `saveLocalTasks`: overwrites the entry with the JSON text; a store
      error is rethrown. */
  method SaveLocalTasks(store: Store, tasks: seq<LocalTask>, fail: bool) returns (r: Outcome<StorageError>)
    modifies store
    ensures fail ==> r == Fail(StorageUnavailable) && store.entries == old(store.entries)
    ensures !fail ==> r == Pass && store.entries == old(store.entries)[TasksKey := SavedText(tasks)]
  {
    r := store.SetItem(TasksKey, Stringify(ToJsonAll(tasks)), fail);
  }

  /** `loadLocalTasks`: never throws; a failed read yields `[]`. */
  method LoadLocalTasks(store: Store, fail: bool) returns (tasks: seq<LocalTask>)
    ensures fail ==> tasks == []
    ensures !fail ==> tasks == Loaded(store.entries)
  {
    var data := store.GetItem(TasksKey, fail);
    if data.Err? {
      return [];
    }
    if data.value.Some? && data.value.value != "" {
      var parsed := Parse(data.value.value);
      if parsed.None? {
        return [];
      }
      var decoded := FromJsonAll(parsed.value);
      if decoded.None? {
        return [];
      }
      return decoded.value;
    }
    return [];
  }

  /** `clearLocalTasks`: removes the entry; a store error is swallowed. */
  method ClearLocalTasks(store: Store, fail: bool)
    modifies store
    ensures fail ==> store.entries == old(store.entries)
    ensures !fail ==> store.entries == old(store.entries) - {TasksKey}
  {
    var _ := store.RemoveItem(TasksKey, fail);
  }

  /** After a successful save, a load returns exactly what was saved. */
  lemma LoadAfterSave(entries: map<string, string>, ts: seq<LocalTask>)
    ensures Loaded(entries[TasksKey := SavedText(ts)]) == ts
  {
    ParseStringify(ToJsonAll(ts));
    FromToJsonAll(ts);
  }

  /** After a successful clear, a load returns `[]`. */
  lemma LoadAfterClear(entries: map<string, string>)
    ensures Loaded(entries - {TasksKey}) == []
  {
  }
}
