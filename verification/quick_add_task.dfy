/** The one-line quick-add box: a title, an optional description shown
    once the box is expanded, and a create with fixed defaults. */
module QuickAddTask {
  import opened Common
  import opened Firestore
  import opened DeviceStorage
  import opened TaskContext
  import AddTaskScreen

  /** The task `handleAddTask` creates: trimmed title, trimmed description
      or none when blank, not completed, `medium`, `Personal`, no due date. */
  function QuickPayload(title: string, description: string): (p: TaskInput)
    ensures p.title == Trim(title)
    ensures p.description.None? <==> IsBlank(description)
    ensures p.description.Some? ==> p.description.value == Trim(description)
    ensures !p.completed && p.priority == "medium" && p.category == "Personal" && p.dueDate.None?
  {
    BlankIffTrimEmpty(description);
    var d := Trim(description);
    TaskInput(Trim(title), if d != "" then Some(d) else None, false, "medium", "Personal", None)
  }

  /** A quick add sends what the full form sends for a new task left at its
      defaults with the same title and description. */
  lemma QuickAddIsFormDefault(title: string, description: string)
    ensures QuickPayload(title, description) ==
      AddTaskScreen.Payload(AddTaskScreen.InitialForm(None).(title := title, description := description), None)
  {
  }

  /** How a press of the add button ended. */
  datatype AddResult = BlankTitle | Added | Failed(error: TaskError)

  class QuickAddBox {
    var taskTitle: string
    var description: string
    var isExpanded: bool
    /** Whether the parent passed `onAddComplete`, and how often it ran. */
    const hasOnAddComplete: bool
    var completions: nat

    constructor (hasOnAddComplete: bool)
      ensures taskTitle == "" && description == "" && !isExpanded
      ensures this.hasOnAddComplete == hasOnAddComplete && completions == 0
    {
      taskTitle := "";
      description := "";
      isExpanded := false;
      this.hasOnAddComplete := hasOnAddComplete;
      completions := 0;
    }

    /** `handleFocus`. */
    method HandleFocus()
      modifies this
      ensures isExpanded
      ensures taskTitle == old(taskTitle) && description == old(description) && completions == old(completions)
    {
      isExpanded := true;
    }

    /** `handleAddTask`: a blank title makes no call. Otherwise one
        `addTask`; on success the box is emptied and collapsed and
        `onAddComplete` runs if given; on failure the box is left as it
        was and the error is only shown. */
    method HandleAddTask(tasks: TaskProvider, db: Database, storage: Store, now: Time,
                         createFails: bool, readFails: bool, writeFails: bool)
      returns (r: AddResult)
      requires db.Valid()
      modifies this, db, storage
      ensures db.Valid() && db.users == old(db.users)
      ensures IsBlank(old(taskTitle)) <==> r == BlankTitle
      ensures r == BlankTitle ==>
        && db.tasks == old(db.tasks) && db.nextId == old(db.nextId) && storage.entries == old(storage.entries)
        && taskTitle == old(taskTitle) && description == old(description) && isExpanded == old(isExpanded)
        && completions == old(completions)
      ensures r == Added ==>
        && tasks.user.Some?
        && db.tasks == old(db.tasks)[DocId(old(db.nextId)) :=
             CreateRecord(WithOwner(QuickPayload(old(taskTitle), old(description)), tasks.user.value), now)]
        && taskTitle == "" && description == "" && !isExpanded
        && completions == old(completions) + (if hasOnAddComplete then 1 else 0)
      ensures r.Failed? ==>
        && db.tasks == old(db.tasks)
        && taskTitle == old(taskTitle) && description == old(description) && isExpanded == old(isExpanded)
        && completions == old(completions)
      ensures r.Failed? && tasks.user.None? ==> r.error == NotAuthenticated && storage.entries == old(storage.entries)
      ensures r.Failed? && tasks.user.Some? ==>
        storage.entries == QueueOnFailure(old(storage.entries), QuickPayload(old(taskTitle), old(description)),
                                          tasks.user.value, now, readFails, writeFails)
      ensures !IsBlank(old(taskTitle)) && tasks.user.Some? && !createFails ==> r == Added
    {
      if IsBlank(taskTitle) {
        return BlankTitle;
      }
      var outcome := tasks.AddTask(db, storage, QuickPayload(taskTitle, description), now, createFails, readFails, writeFails);
      if outcome.Fail? {
        return Failed(outcome.error);
      }
      taskTitle := "";
      description := "";
      isExpanded := false;
      if hasOnAddComplete {
        completions := completions + 1;
      }
      r := Added;
    }
  }
}
