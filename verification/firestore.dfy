/** The cloud document store: the `tasks` collection and the `users`
    collection, with the record shaping the service layer applies before
    every write (`removeUndefined`, the creation and update records, profile
    and settings defaults). The clock and the success of each remote call are
    parameters. */
module Firestore {
  import opened Common

  /** A field value of a document, with `undefined` kept apart from `null`. */
  datatype Value = Undefined | Null | Bool(b: bool) | Str(s: string) | Stamp(t: Time)
  {
    /** JavaScript truthiness of the value. */
    predicate Truthy() {
      match this
      case Undefined => false
      case Null => false
      case Bool(b) => b
      case Str(s) => s != ""
      case Stamp(_) => true
    }
  }

  /** A document (or a partial one, as passed to an update): field name to value. */
  type Record = map<string, Value>

  /** A task as the application reads it back. */
  datatype Task = Task(
    id: Option<string>,
    userId: string,
    title: string,
    description: Option<string>,
    completed: bool,
    priority: string,
    category: string,
    dueDate: Option<Time>,
    createdAt: Time,
    updatedAt: Time)

  /** The argument of `createTask`: a task without id and timestamps. The
      offline replay passes no `userId` at all. */
  datatype NewTask = NewTask(
    userId: Option<string>,
    title: string,
    description: Option<string>,
    completed: bool,
    priority: string,
    category: string,
    dueDate: Option<Time>)

  datatype Profile = Profile(name: string, email: string, photoURL: Option<string>, createdAt: Time)

  /** The argument of `createUserProfile`. */
  datatype ProfileInput = ProfileInput(name: string, email: string, photoURL: Option<string>)

  datatype Settings = Settings(theme: string, notifications: bool)

  /** The argument of `updateUserSettings`: either field may be missing. */
  datatype SettingsUpdate = SettingsUpdate(theme: Option<string>, notifications: Option<bool>)

  /** A document of the `users` collection: two optional map fields. */
  datatype UserDoc = UserDoc(profile: Option<Profile>, settings: Option<Settings>)

  /** Why a remote call was rejected. */
  datatype StoreError = Unavailable | NotFound

  const DefaultSettings := Settings("system", true)

  // ---------------------------------------------------------------------
  // removeUndefined

  /** The fields of `obj` whose value is not `undefined`, unchanged. */
  function Cleaned(obj: Record): (r: Record)
    ensures forall k :: k in r <==> k in obj && obj[k] != Undefined
    ensures forall k :: k in r ==> r[k] == obj[k]
  {
    map k | k in obj && obj[k] != Undefined :: obj[k]
  }

  lemma CleanedIdempotent(obj: Record)
    ensures Cleaned(Cleaned(obj)) == Cleaned(obj)
  {
    var once := Cleaned(obj);
    assert forall k :: k in once ==> once[k] != Undefined;
  }

  /** `null`, `false` and `''` are values, not absences: they survive. */
  lemma CleanedKeepsFalsy(obj: Record, k: string)
    requires k in obj && (obj[k] == Null || obj[k] == Bool(false) || obj[k] == Str(""))
    ensures k in Cleaned(obj) && Cleaned(obj)[k] == obj[k]
  {
  }

  /** `removeUndefined`: copies, key by key, every field that is not `undefined`. */
  method RemoveUndefined(obj: Record) returns (cleaned: Record)
    ensures cleaned == Cleaned(obj)
  {
    cleaned := map[];
    var keys := obj.Keys;
    while keys != {}
      invariant keys <= obj.Keys
      invariant forall k :: k in cleaned <==> k in obj && k !in keys && obj[k] != Undefined
      invariant forall k :: k in cleaned ==> cleaned[k] == obj[k]
      decreases keys
    {
      var key :| key in keys;
      if obj[key] != Undefined {
        cleaned := cleaned[key := obj[key]];
      }
      keys := keys - {key};
    }
  }

  // ---------------------------------------------------------------------
  // Record shaping

  function OptStr(o: Option<string>): Value {
    if o.Some? then Str(o.value) else Undefined
  }

  /** The due date as written: a timestamp, or `null` when it is falsy. */
  function DueValue(d: Option<Time>): Value {
    if d.Some? then Stamp(d.value) else Null
  }

  /** The object literal `createTask` hands to `removeUndefined`. */
  function NewTaskFields(task: NewTask): Record {
    map[
      "userId" := OptStr(task.userId),
      "title" := Str(task.title),
      "description" := OptStr(task.description),
      "completed" := Bool(task.completed),
      "priority" := Str(task.priority),
      "category" := Str(task.category)]
  }

  /** The document `createTask` writes. */
  function CreateRecord(task: NewTask, now: Time): Record {
    Cleaned(NewTaskFields(task))["dueDate" := DueValue(task.dueDate)]["createdAt" := Stamp(now)]["updatedAt" := Stamp(now)]
  }

  /** The created document: no `undefined` field, one creation time for both
      timestamps, a `null` due date when none is given, the description and
      owner only when they are defined, and no `id` field. */
  lemma CreateRecordFields(task: NewTask, now: Time)
    ensures var rec := CreateRecord(task, now);
      && (forall k :: k in rec ==> rec[k] != Undefined)
      && "createdAt" in rec && "updatedAt" in rec
      && rec["createdAt"] == rec["updatedAt"] == Stamp(now)
      && "dueDate" in rec && rec["dueDate"] == DueValue(task.dueDate)
      && ("description" in rec <==> task.description.Some?)
      && ("userId" in rec <==> task.userId.Some?)
      && (task.userId.Some? ==> rec["userId"] == Str(task.userId.value))
      && "title" in rec && rec["title"] == Str(task.title)
      && "completed" in rec && rec["completed"] == Bool(task.completed)
      && "id" !in rec
  {
  }

  /** The partial document `updateTask` writes. */
  function UpdateData(updates: Record, now: Time): (d: Record)
    ensures "updatedAt" in d && d["updatedAt"] == Stamp(now)
    ensures forall k :: k in d ==> d[k] != Undefined
    ensures "dueDate" in d <==> "dueDate" in updates && updates["dueDate"] != Undefined
    ensures "dueDate" in d ==> d["dueDate"] == (if updates["dueDate"].Truthy() then updates["dueDate"] else Null)
    ensures forall k :: k != "updatedAt" && k != "dueDate" ==>
      (k in d <==> k in updates && updates[k] != Undefined) && (k in d ==> d[k] == updates[k])
  {
    var data := Cleaned(updates)["updatedAt" := Stamp(now)];
    if "dueDate" in updates && updates["dueDate"] != Undefined then
      data["dueDate" := if updates["dueDate"].Truthy() then updates["dueDate"] else Null]
    else data
  }

  /** The profile `createUserProfile` writes and returns. */
  function ProfileData(p: ProfileInput, now: Time): (d: Profile)
    ensures d.name != "" && (p.name != "" ==> d.name == p.name) && (p.name == "" ==> d.name == "User")
    ensures p.email != "" ==> d.email == p.email
    ensures p.email == "" ==> d.email == ""
    ensures d.photoURL.Some? <==> Present(p.photoURL)
    ensures d.photoURL.Some? ==> d.photoURL == p.photoURL
    ensures d.createdAt == now
  {
    Profile(OrElse(p.name, "User"), OrElse(p.email, ""), if Present(p.photoURL) then p.photoURL else None, now)
  }

  /** A `set` with `merge: true` of a `profile` map: the fields written
      replace the stored ones, a stored field not written (`photoURL`) stays. */
  function MergeProfile(old_: Option<Profile>, d: Profile): (r: Profile)
    ensures r.name == d.name && r.email == d.email && r.createdAt == d.createdAt
    ensures d.photoURL.Some? ==> r.photoURL == d.photoURL
    ensures d.photoURL.None? ==> r.photoURL == (if old_.Some? then old_.value.photoURL else None)
  {
    if d.photoURL.None? && old_.Some? then d.(photoURL := old_.value.photoURL) else d
  }

  /** The `users` collection after a merged write of `p` as the user's
      profile: the settings and any other user are untouched. */
  function WithProfile(users: map<string, UserDoc>, userId: string, p: Profile): (r: map<string, UserDoc>)
    ensures userId in r && r[userId].profile == Some(MergeProfile(if userId in users then users[userId].profile else None, p))
    ensures r[userId].settings == if userId in users then users[userId].settings else None
    ensures forall u :: u != userId ==> (u in r <==> u in users) && (u in r ==> r[u] == users[u])
  {
    var doc := if userId in users then users[userId] else UserDoc(None, None);
    users[userId := doc.(profile := Some(MergeProfile(doc.profile, p)))]
  }

  /** The settings `updateUserSettings` writes: both fields, always. */
  function SettingsData(s: SettingsUpdate): (r: Settings)
    ensures Present(s.theme) ==> r.theme == s.theme.value
    ensures !Present(s.theme) ==> r.theme == "system"
    ensures s.notifications.Some? ==> r.notifications == s.notifications.value
    ensures s.notifications.None? ==> r.notifications
  {
    Settings(OptOr(s.theme, "system"), s.notifications.GetOr(true))
  }

  /** Updating only `notifications` resets the theme to `system`. */
  lemma SettingsThemeReset(n: bool)
    ensures SettingsData(SettingsUpdate(None, Some(n))) == Settings("system", n)
  {
  }

  // ---------------------------------------------------------------------
  // Store-assigned document ids

  /** The allocation number an id was handed out under. */
  function IdNumber(id: string): int {
    |id| - 1
  }

  /** The id the store assigns to the `n`-th new document. The store's
      auto-ids are random text; all that matters is that no two
      allocations share one, so the `n`-th id is `n + 1` characters long. */
  function DocId(n: nat): (id: string)
    ensures IdNumber(id) == n
  {
    seq(n + 1, i => '#')
  }

  /** The collection after a sequence of `set` writes, applied in order. */
  function ApplyWrites(tasks: map<string, Record>, writes: seq<(string, Record)>): map<string, Record>
    decreases |writes|
  {
    if writes == [] then tasks else ApplyWrites(tasks[writes[0].0 := writes[0].1], writes[1..])
  }

  /** One more write at the end lands last. */
  lemma {:induction false} ApplyWritesSnoc(tasks: map<string, Record>, ws: seq<(string, Record)>, w: (string, Record))
    ensures ApplyWrites(tasks, ws + [w]) == ApplyWrites(tasks, ws)[w.0 := w.1]
    decreases |ws|
  {
    if ws != [] {
      ApplyWritesSnoc(tasks[ws[0].0 := ws[0].1], ws[1..], w);
      assert (ws + [w])[1..] == ws[1..] + [w];
    }
  }

  lemma {:induction false} ApplyWritesKeys(tasks: map<string, Record>, writes: seq<(string, Record)>)
    ensures ApplyWrites(tasks, writes).Keys == tasks.Keys + set i | 0 <= i < |writes| :: writes[i].0
    decreases |writes|
  {
    if writes != [] {
      ApplyWritesKeys(tasks[writes[0].0 := writes[0].1], writes[1..]);
      var rest := set i | 0 <= i < |writes[1..]| :: writes[1..][i].0;
      var all := set i | 0 <= i < |writes| :: writes[i].0;
      assert all == {writes[0].0} + rest by {
        forall x | x in all ensures x in {writes[0].0} + rest {
          var i :| 0 <= i < |writes| && writes[i].0 == x;
          if i > 0 { assert writes[1..][i - 1].0 == x; }
        }
        forall x | x in rest ensures x in all {
          var i :| 0 <= i < |writes[1..]| && writes[1..][i].0 == x;
          assert writes[i + 1].0 == x;
        }
      }
    }
  }

  class Database {
    var tasks: map<string, Record>
    var users: map<string, UserDoc>
    var nextId: nat

    /** No id the store will hand out later is in use already. */
    ghost predicate Valid()
      reads this
    {
      forall id :: id in tasks ==> IdNumber(id) < nextId
    }

    constructor ()
      ensures tasks == map[] && users == map[] && nextId == 0
      ensures Valid()
    {
      tasks := map[];
      users := map[];
      nextId := 0;
    }

    /** `collection('tasks').doc()`: a reference to a new, unused document. */
    method NewDocId() returns (id: string)
      requires Valid()
      modifies this
      ensures Valid()
      ensures id == DocId(old(nextId)) && id !in tasks
      ensures nextId == old(nextId) + 1 && IdNumber(id) < nextId
      ensures tasks == old(tasks) && users == old(users)
    {
      id := DocId(nextId);
      nextId := nextId + 1;
    }

    /** `createTask`: writes the shaped record under a new id and returns it
        with that id; a failed write adds nothing and is rethrown. */
    method CreateTask(task: NewTask, now: Time, fail: bool) returns (r: Result<(string, Record), StoreError>)
      requires Valid()
      modifies this
      ensures Valid() && users == old(users)
      ensures fail ==> r == Err(Unavailable) && tasks == old(tasks)
      ensures fail ==> nextId == old(nextId)
      ensures !fail ==> r.Ok? && r.value.0 !in old(tasks) && r.value.1 == CreateRecord(task, now)
      ensures !fail ==> r.value.0 == DocId(old(nextId)) && nextId == old(nextId) + 1
      ensures !fail ==> tasks == old(tasks)[r.value.0 := r.value.1]
    {
      var cleaned := RemoveUndefined(NewTaskFields(task));
      if task.dueDate.Some? {
        cleaned := cleaned["dueDate" := Stamp(task.dueDate.value)];
      } else {
        cleaned := cleaned["dueDate" := Null];
      }
      var taskData := cleaned["createdAt" := Stamp(now)]["updatedAt" := Stamp(now)];
      if fail {
        return Err(Unavailable);
      }
      var id := NewDocId();
      tasks := tasks[id := taskData];
      r := Ok((id, taskData));
    }

    /** `updateTask`: merges the shaped update into an existing document.
        A missing document or a failed call is an error and changes nothing. */
    method UpdateTask(taskId: string, updates: Record, now: Time, fail: bool) returns (r: Result<(string, Record), StoreError>)
      requires Valid()
      modifies this
      ensures Valid() && users == old(users) && nextId == old(nextId)
      ensures fail ==> r == Err(Unavailable) && tasks == old(tasks)
      ensures !fail && taskId !in old(tasks) ==> r == Err(NotFound) && tasks == old(tasks)
      ensures !fail && taskId in old(tasks) ==>
        r == Ok((taskId, UpdateData(updates, now))) &&
        tasks == old(tasks)[taskId := old(tasks)[taskId] + UpdateData(updates, now)]
    {
      var cleanedUpdates := RemoveUndefined(updates);
      var updateData := cleanedUpdates["updatedAt" := Stamp(now)];
      if "dueDate" in updates && updates["dueDate"] != Undefined {
        updateData := updateData["dueDate" := if updates["dueDate"].Truthy() then updates["dueDate"] else Null];
      }
      if fail {
        return Err(Unavailable);
      }
      if taskId !in tasks {
        return Err(NotFound);
      }
      tasks := tasks[taskId := tasks[taskId] + updateData];
      r := Ok((taskId, updateData));
    }

    /** `deleteTask`: removes the document if there is one; errors are rethrown. */
    method DeleteTask(taskId: string, fail: bool) returns (r: Outcome<StoreError>)
      requires Valid()
      modifies this
      ensures Valid() && users == old(users) && nextId == old(nextId)
      ensures fail ==> r == Fail(Unavailable) && tasks == old(tasks)
      ensures !fail ==> r == Pass && tasks == old(tasks) - {taskId}
    {
      if fail {
        return Fail(Unavailable);
      }
      tasks := tasks - {taskId};
      r := Pass;
    }

    /** `getTasks`: the documents whose `userId` is the given one, keyed by
        id; a failed query yields none. */
    method GetTasks(userId: string, fail: bool) returns (r: map<string, Record>)
      ensures fail ==> r == map[]
      ensures !fail ==> forall id :: id in r <==> id in tasks && "userId" in tasks[id] && tasks[id]["userId"] == Str(userId)
      ensures forall id :: id in r ==> id in tasks && r[id] == tasks[id]
    {
      if fail {
        return map[];
      }
      r := map id | id in tasks && "userId" in tasks[id] && tasks[id]["userId"] == Str(userId) :: tasks[id];
    }

    /** A batch of `set` writes committed at once: all of them or none. */
    method CommitBatch(writes: seq<(string, Record)>, fail: bool) returns (r: Outcome<StoreError>)
      requires Valid()
      requires forall i :: 0 <= i < |writes| ==> IdNumber(writes[i].0) < nextId
      modifies this
      ensures Valid() && users == old(users) && nextId == old(nextId)
      ensures fail ==> r == Fail(Unavailable) && tasks == old(tasks)
      ensures !fail ==> r == Pass && tasks == ApplyWrites(old(tasks), writes)
    {
      if fail {
        return Fail(Unavailable);
      }
      ApplyWritesKeys(tasks, writes);
      tasks := ApplyWrites(tasks, writes);
      r := Pass;
    }

    /** `createUserProfile`: writes the defaulted profile with `merge: true`
        and returns it; the settings of the document are untouched. */
    method CreateUserProfile(userId: string, profile: ProfileInput, now: Time, fail: bool) returns (r: Result<Profile, StoreError>)
      modifies this
      ensures tasks == old(tasks) && nextId == old(nextId)
      ensures fail ==> r == Err(Unavailable) && users == old(users)
      ensures !fail ==> r == Ok(ProfileData(profile, now))
      ensures !fail ==> users == WithProfile(old(users), userId, ProfileData(profile, now))
    {
      var photo: Option<string> := None;
      if Present(profile.photoURL) {
        photo := profile.photoURL;
      }
      var profileData := Profile(OrElse(profile.name, "User"), OrElse(profile.email, ""), photo, now);
      if fail {
        return Err(Unavailable);
      }
      var doc := if userId in users then users[userId] else UserDoc(None, None);
      users := users[userId := doc.(profile := Some(MergeProfile(doc.profile, profileData)))];
      r := Ok(profileData);
    }

    /** `getUserProfile`: `null` for a missing document, a document without a
        profile, or a failed read. */
    method GetUserProfile(userId: string, fail: bool) returns (r: Option<Profile>)
      ensures fail || userId !in users ==> r == None
      ensures !fail && userId in users ==> r == users[userId].profile
    {
      if fail || userId !in users {
        return None;
      }
      r := users[userId].profile;
    }

    /** `updateUserSettings`: writes both settings fields with `merge: true`;
        errors are rethrown. */
    method UpdateUserSettings(userId: string, settings: SettingsUpdate, fail: bool) returns (r: Outcome<StoreError>)
      modifies this
      ensures tasks == old(tasks) && nextId == old(nextId)
      ensures fail ==> r == Fail(Unavailable) && users == old(users)
      ensures !fail ==> r == Pass && users == old(users)[userId := UserDoc(
        if userId in old(users) then old(users)[userId].profile else None, Some(SettingsData(settings)))]
    {
      var theme: Option<string> := None;
      var notifications: Option<bool> := None;
      if settings.theme.Some? {
        theme := settings.theme;
      }
      if settings.notifications.Some? {
        notifications := settings.notifications;
      }
      var written := Settings(if Present(theme) then theme.value else "system",
                              if notifications.Some? then notifications.value else true);
      if fail {
        return Fail(Unavailable);
      }
      var doc := if userId in users then users[userId] else UserDoc(None, None);
      users := users[userId := doc.(settings := Some(written))];
      r := Pass;
    }

    /** `getUserSettings`: `null` for a missing document, the defaults for a
        document without settings or a failed read. */
    method GetUserSettings(userId: string, fail: bool) returns (r: Option<Settings>)
      ensures fail ==> r == Some(DefaultSettings)
      ensures !fail && userId !in users ==> r == None
      ensures !fail && userId in users ==> r == Some(users[userId].settings.GetOr(DefaultSettings))
    {
      if fail {
        return Some(DefaultSettings);
      }
      if userId !in users {
        return None;
      }
      var stored := users[userId].settings;
      r := if stored.Some? then stored else Some(DefaultSettings);
    }
  }
}
