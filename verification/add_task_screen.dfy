/** The add/edit task form: its initial fields, the save rule (validation,
    payload, and the choice between creating and updating), and the date
    and time pickers' effect on the due date. */
module AddTaskScreen {
  import opened Common
  import opened Firestore
  import opened DeviceStorage
  import opened Helpers
  import opened TaskContext

  /** The form's editable fields. */
  datatype Form = Form(title: string, description: string, priority: string, category: string, dueDate: Option<Time>)

  /** The fields a form opens with: the edited task's, or the defaults
      `medium` and `Personal` for a new task; an empty value falls back
      as a new task's would. */
  function InitialForm(editing: Option<Task>): (f: Form)
    ensures editing.None? ==> f == Form("", "", "medium", "Personal", None)
    ensures editing.Some? ==> f.dueDate == editing.value.dueDate
    ensures editing.Some? && editing.value.title != "" ==> f.title == editing.value.title
    ensures editing.Some? && editing.value.priority != "" ==> f.priority == editing.value.priority
    ensures editing.Some? && editing.value.category != "" ==> f.category == editing.value.category
  {
    match editing
    case None => Form("", "", "medium", "Personal", None)
    case Some(t) =>
      Form(OrElse(t.title, ""), OptOr(t.description, ""), OrElse(t.priority, "medium"),
        OrElse(t.category, "Personal"), t.dueDate)
  }

  /** What pressing Save does: nothing but an alert for a blank title, else
      exactly one of an update of the edited task (when it has an id) or a
      create. */
  datatype SaveRequest = Invalid | UpdateExisting(id: string, payload: TaskInput) | AddNew(payload: TaskInput)

  /** `taskData`: trimmed title, trimmed description or none when blank,
      the due date or null, and the edited task's completion (false for a
      new task). */
  function Payload(f: Form, editing: Option<Task>): (p: TaskInput)
    ensures p.title == Trim(f.title)
    ensures p.description.None? <==> IsBlank(f.description)
    ensures p.description.Some? ==> p.description.value == Trim(f.description)
    ensures p.priority == f.priority && p.category == f.category && p.dueDate == f.dueDate
    ensures p.completed <==> editing.Some? && editing.value.completed
  {
    BlankIffTrimEmpty(f.description);
    var description := Trim(f.description);
    TaskInput(Trim(f.title), if description != "" then Some(description) else None,
      editing.Some? && editing.value.completed, f.priority, f.category, f.dueDate)
  }

  function Save(f: Form, editing: Option<Task>): (r: SaveRequest)
    ensures r.Invalid? <==> IsBlank(f.title)
    ensures r.UpdateExisting? <==> !IsBlank(f.title) && editing.Some? && Present(editing.value.id)
    ensures r.UpdateExisting? ==> r.id == editing.value.id.value
    ensures !r.Invalid? ==> r.payload == Payload(f, editing)
  {
    if IsBlank(f.title) then Invalid
    else if editing.Some? && Present(editing.value.id) then UpdateExisting(editing.value.id.value, Payload(f, editing))
    else AddNew(Payload(f, editing))
  }

  /** A saved title passes validation again and is already trimmed; so is a
      saved description. */
  lemma SavedPayloadIsClean(f: Form, editing: Option<Task>)
    requires !IsBlank(f.title)
    ensures !IsBlank(Payload(f, editing).title) && Trim(Payload(f, editing).title) == Payload(f, editing).title
    ensures Payload(f, editing).description.Some? ==> !IsBlank(Payload(f, editing).description.value)
  {
    TrimIdempotent(f.title);
    TrimIdempotent(f.description);
    BlankIffTrimEmpty(f.title);
    BlankIffTrimEmpty(Trim(f.title));
    BlankIffTrimEmpty(f.description);
    BlankIffTrimEmpty(Trim(f.description));
  }

  /** Opening a stored task and saving it unchanged sends back the task's
      own fields, provided they are in the form Save produces. */
  lemma {:induction false} EditUnchanged(t: Task)
    requires Present(t.id)
    requires !IsBlank(t.title) && Trim(t.title) == t.title
    requires t.description.Some? ==> !IsBlank(t.description.value) && Trim(t.description.value) == t.description.value
    requires t.priority != "" && t.category != ""
    ensures Save(InitialForm(Some(t)), Some(t)) ==
      UpdateExisting(t.id.value, TaskInput(t.title, t.description, t.completed, t.priority, t.category, t.dueDate))
  {
    var f := InitialForm(Some(t));
    DescriptionRoundTrip(t.description);
    assert f.title == t.title;
    var p := Payload(f, Some(t));
    assert p == TaskInput(t.title, t.description, t.completed, t.priority, t.category, t.dueDate);
  }

  /** A description in the form Save produces survives being loaded into
      the form and saved again. */
  lemma DescriptionRoundTrip(d: Option<string>)
    requires d.Some? ==> !IsBlank(d.value) && Trim(d.value) == d.value
    ensures var s := OptOr(d, ""); (if IsBlank(s) then None else Some(Trim(s))) == d
  {
    if d.Some? {
      assert d.value != "";
      assert OptOr(d, "") == d.value;
    } else {
      assert OptOr(d, "") == "";
      assert IsBlank("");
    }
  }

  /** The update document an edit sends: every field of the payload, with
      an absent description as `undefined`, which the store drops. */
  function UpdateRecord(p: TaskInput): (d: Record)
    ensures "description" in d && (d["description"] == Undefined <==> p.description.None?)
    ensures "dueDate" in d && d["dueDate"] == (if p.dueDate.Some? then Stamp(p.dueDate.value) else Null)
  {
    map[
      "title" := Str(p.title),
      "description" := (if p.description.Some? then Str(p.description.value) else Undefined),
      "priority" := Str(p.priority),
      "category" := Str(p.category),
      "dueDate" := (if p.dueDate.Some? then Stamp(p.dueDate.value) else Null),
      "completed" := Bool(p.completed)]
  }

  /** Clearing the description of an edited task leaves the stored one in
      place: the update carries no `description`, so the merge keeps the old
      value; a cleared due date, in contrast, is written as null. */
  lemma ClearedFieldsOnEdit(stored: Record, p: TaskInput, now: Time)
    requires p.description.None? && p.dueDate.None?
    ensures "description" in stored ==> (stored + UpdateData(UpdateRecord(p), now))["description"] == stored["description"]
    ensures (stored + UpdateData(UpdateRecord(p), now))["dueDate"] == Null
  {
    var u := UpdateRecord(p);
    assert "description" in u && u["description"] == Undefined;
    assert "dueDate" in u && u["dueDate"] == Null;
  }

  // ---------------------------------------------------------------------
  // The due-date pickers

  const HourMs: int := 3_600_000
  const MinuteMs: int := 60_000

  /** `getHours()` and `getMinutes()` of an instant. */
  function HourOf(t: Time): (h: int)
    ensures 0 <= h < 24
  {
    (t - Midnight(t)) / HourMs
  }

  function MinuteOf(t: Time): (m: int)
    ensures 0 <= m < 60
  {
    (t - Midnight(t)) / MinuteMs % 60
  }

  /** Seconds and milliseconds within the minute, which `setHours(h, m)`
      leaves alone. */
  function SubMinute(t: Time): (s: int)
    ensures 0 <= s < MinuteMs
  {
    (t - Midnight(t)) % MinuteMs
  }

  /** `setHours(h, m)`: the same day and seconds, at hour `h` and minute `m`. */
  function WithHoursMinutes(t: Time, h: int, m: int): (r: Time)
    requires 0 <= h < 24 && 0 <= m < 60
    ensures Day(r) == Day(t)
    ensures HourOf(r) == h && MinuteOf(r) == m && SubMinute(r) == SubMinute(t)
  {
    var r := Midnight(t) + h * HourMs + m * MinuteMs + SubMinute(t);
    assert Midnight(t) <= r < Midnight(t) + DayMs;
    DayOfOffset(t, r);
    r
  }

  /** An instant within a day has that day, and its offset from midnight is
      what was added. */
  lemma DayOfOffset(t: Time, r: Time)
    requires Midnight(t) <= r < Midnight(t) + DayMs
    ensures Day(r) == Day(t) && Midnight(r) == Midnight(t)
  {
    assert Day(r) == Day(t) by {
      assert Day(t) * DayMs <= r < (Day(t) + 1) * DayMs;
    }
  }

  class AddTaskForm {
    var form: Form
    var showDatePicker: bool
    var showTimePicker: bool
    /** The task being edited, if the screen was opened on one. */
    const editing: Option<Task>

    constructor (editing: Option<Task>)
      ensures this.editing == editing && form == InitialForm(editing)
      ensures !showDatePicker && !showTimePicker
    {
      this.editing := editing;
      form := InitialForm(editing);
      showDatePicker := false;
      showTimePicker := false;
    }

    /** `handleDateChange`: the picker closes (except on iOS); a chosen date
        replaces the due date, and when the time picker was open it keeps
        the previous due date's hours and minutes and closes the time
        picker. */
    method HandleDateChange(selected: Option<Time>, ios: bool)
      modifies this
      ensures showDatePicker == ios
      ensures selected.None? ==> form == old(form) && showTimePicker == old(showTimePicker)
      ensures selected.Some? && !old(showTimePicker) ==> form == old(form).(dueDate := selected) && !showTimePicker
      ensures selected.Some? && old(showTimePicker) ==> !showTimePicker && form.dueDate.Some?
      ensures selected.Some? && old(showTimePicker) ==>
        var s := selected.value;
        var due := form.dueDate.value;
        && form == old(form).(dueDate := form.dueDate)
        && Day(due) == Day(s) && SubMinute(due) == SubMinute(s)
        && (old(form.dueDate).Some? ==>
              HourOf(due) == HourOf(old(form.dueDate).value) && MinuteOf(due) == MinuteOf(old(form.dueDate).value))
        && (old(form.dueDate).None? ==> due == s)
    {
      showDatePicker := ios;
      if selected.Some? {
        var chosen := selected.value;
        if showTimePicker {
          if form.dueDate.Some? {
            chosen := WithHoursMinutes(chosen, HourOf(form.dueDate.value), MinuteOf(form.dueDate.value));
          }
          showTimePicker := false;
        }
        form := form.(dueDate := Some(chosen));
      }
    }

    /** `handleTimeChange`: the picker closes (except on iOS); a chosen time
        changes only the hours and minutes of an existing due date, and
        nothing when there is none. */
    method HandleTimeChange(selected: Option<Time>, ios: bool)
      modifies this
      ensures showTimePicker == ios && showDatePicker == old(showDatePicker)
      ensures selected.None? || old(form.dueDate).None? ==> form == old(form)
      ensures selected.Some? && old(form.dueDate).Some? ==>
        var before := old(form.dueDate).value;
        && form == old(form).(dueDate := form.dueDate)
        && form.dueDate.Some?
        && Day(form.dueDate.value) == Day(before)
        && SubMinute(form.dueDate.value) == SubMinute(before)
        && HourOf(form.dueDate.value) == HourOf(selected.value)
        && MinuteOf(form.dueDate.value) == MinuteOf(selected.value)
    {
      showTimePicker := ios;
      if selected.Some? && form.dueDate.Some? {
        var newDate := WithHoursMinutes(form.dueDate.value, HourOf(selected.value), MinuteOf(selected.value));
        form := form.(dueDate := Some(newDate));
      }
    }

    /** `removeDueDate`. */
    method RemoveDueDate()
      modifies this
      ensures form == old(form).(dueDate := None)
      ensures showDatePicker == old(showDatePicker) && showTimePicker == old(showTimePicker)
    {
      form := form.(dueDate := None);
    }

    /** `handleSave`: a blank title makes no store call; otherwise exactly
        one call, the update of the edited task or the create. The form is
        left as it is (the screen then closes on success). */
    method HandleSave(tasks: TaskProvider, db: Database, storage: Store, now: Time,
                      createFails: bool, readFails: bool, writeFails: bool, updateFails: bool)
      returns (r: Outcome<TaskError>)
      requires db.Valid()
      modifies db, storage
      ensures db.Valid() && db.users == old(db.users)
      ensures Save(form, editing).Invalid? ==>
        r == Pass && db.tasks == old(db.tasks) && db.nextId == old(db.nextId) && storage.entries == old(storage.entries)
      ensures Save(form, editing).UpdateExisting? ==> storage.entries == old(storage.entries) && db.nextId == old(db.nextId)
      ensures Save(form, editing).UpdateExisting? && r.Pass? ==>
        var id := Save(form, editing).id;
        id in old(db.tasks) &&
        db.tasks == old(db.tasks)[id := old(db.tasks)[id] + UpdateData(UpdateRecord(Save(form, editing).payload), now)]
      ensures Save(form, editing).AddNew? && r.Pass? ==>
        tasks.user.Some? &&
        db.tasks == old(db.tasks)[DocId(old(db.nextId)) := CreateRecord(WithOwner(Save(form, editing).payload, tasks.user.value), now)]
      ensures !Save(form, editing).Invalid? && tasks.user.None? ==>
        r == Fail(NotAuthenticated) && db.tasks == old(db.tasks) && storage.entries == old(storage.entries)
      ensures r.Fail? ==> db.tasks == old(db.tasks)
      ensures Save(form, editing).UpdateExisting? && tasks.user.Some? ==>
        (r.Pass? <==> !updateFails && Save(form, editing).id in old(db.tasks))
      ensures Save(form, editing).AddNew? && tasks.user.Some? ==> (r.Pass? <==> !createFails)
      ensures Save(form, editing).AddNew? && tasks.user.Some? && createFails ==>
        storage.entries == QueueOnFailure(old(storage.entries), Save(form, editing).payload, tasks.user.value, now, readFails, writeFails)
    {
      var request := Save(form, editing);
      match request
      case Invalid =>
        r := Pass;
      case UpdateExisting(id, payload) =>
        r := tasks.UpdateTask(db, id, UpdateRecord(payload), now, updateFails);
      case AddNew(payload) =>
        r := tasks.AddTask(db, storage, payload, now, createFails, readFails, writeFails);
    }
  }
}
