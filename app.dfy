/** The later version of the component: the same task list and edit session, plus a
    status message that each successful submit sets and that a timer later clears.
    The timer is modelled as an explicit expiry event. */
module App {
  import opened JsString
  import opened TaskList
  import Editor

  const AddedMessage := "Task added!"
  const UpdatedMessage := "Task updated!"

  datatype AppState = AppState(editor: Editor.EditorState, message: string)

  const Initial := AppState(Editor.Initial, "")

  /** The effect schedules a clearing timer exactly while the message is non-empty. */
  predicate ExpiryPending(a: AppState) {
    a.message != ""
  }

  /** The message a submit leaves behind: the confirmation of what it did, or the
      previous message when it was ignored. */
  function Notice(outcome: Editor.Outcome, previous: string): (m: string)
  {
    match outcome
    case Ignored => previous
    case Added => AddedMessage
    case Updated => UpdatedMessage
  }

  /** `addOrUpdateTask` with its status message. */
  function Submit(a: AppState, newId: TaskId): (r: AppState)
  {
    var sub := Editor.Submit(a.editor, newId);
    AppState(sub.state, Notice(sub.outcome, a.message))
  }

  /** `deleteTask(id)`: the message is not touched. */
  function Delete(a: AppState, id: TaskId): (r: AppState)
  {
    a.(editor := Editor.Delete(a.editor, id))
  }

  /** `editTask(task)`: the message is not touched. */
  function Edit(a: AppState, t: Task): (r: AppState)
  {
    a.(editor := Editor.Edit(a.editor, t))
  }

  /** The input box's change handler. */
  function ChangeInput(a: AppState, value: string): (r: AppState)
  {
    a.(editor := Editor.ChangeInput(a.editor, value))
  }

  /** The timer firing: it only exists while a message is shown, and it clears it. */
  function Expire(a: AppState): (r: AppState)
    requires ExpiryPending(a)
  {
    a.(message := "")
  }

  /** On the task list, the input and the edit session, every handler of the later
      version does exactly what the shared one does, so every `Editor` lemma carries over. */
  lemma SharesEditorTransitions(a: AppState, newId: TaskId, id: TaskId, t: Task, value: string)
    ensures Submit(a, newId).editor == Editor.Submit(a.editor, newId).state
    ensures Delete(a, id).editor == Editor.Delete(a.editor, id)
    ensures Edit(a, t).editor == Editor.Edit(a.editor, t)
    ensures ChangeInput(a, value).editor == Editor.ChangeInput(a.editor, value)
  {
  }

  /** A blank submit changes nothing at all, the message included. */
  lemma SubmitBlankIsNoop(a: AppState, newId: TaskId)
    requires IsBlank(a.editor.input)
    ensures Submit(a, newId) == a
  {
  }

  /** A non-blank submit outside an edit session appends the input as a new task after
      an unchanged prefix and reports "Task added!"; inside one, it keeps length and ids,
      gives the input as text to the tasks with the target id and to no other task (none
      at all when the target is absent) and reports "Task updated!". Either way
      the input is cleared, the session is over and a clearing timer is pending. */
  lemma SubmitReports(a: AppState, newId: TaskId)
    requires Editor.EditInvariant(a.editor) && !IsBlank(a.editor.input)
    ensures var r := Submit(a, newId);
      && r.editor.input == "" && !r.editor.isEditing && r.editor.currentEditId == Editor.None
      && ExpiryPending(r)
      && (!a.editor.isEditing ==>
            && r.message == "Task added!"
            && r.editor.tasks == a.editor.tasks + [Task(newId, a.editor.input)])
      && (a.editor.isEditing ==>
            && r.message == "Task updated!"
            && |r.editor.tasks| == |a.editor.tasks|
            && (forall i :: 0 <= i < |a.editor.tasks| ==> r.editor.tasks[i].id == a.editor.tasks[i].id)
            && (forall i :: 0 <= i < |a.editor.tasks| && Editor.Some(a.editor.tasks[i].id) == a.editor.currentEditId ==>
                  r.editor.tasks[i].text == a.editor.input)
            && (forall i :: 0 <= i < |a.editor.tasks| && Editor.Some(a.editor.tasks[i].id) != a.editor.currentEditId ==>
                  r.editor.tasks[i] == a.editor.tasks[i])
            && (!HasId(a.editor.tasks, a.editor.currentEditId.value) ==> r.editor.tasks == a.editor.tasks))
  {
    if a.editor.isEditing {
      Editor.SubmitUpdates(a.editor, newId, a.editor.currentEditId.value);
    }
  }

  /** Deleting, opening a task for editing and typing never touch the message; deleting
      the edit target cancels the session and clears the input, deleting another id
      leaves the session and the input alone. */
  lemma OtherHandlersKeepMessage(a: AppState, id: TaskId, t: Task, value: string)
    ensures Delete(a, id).message == a.message
    ensures Edit(a, t).message == a.message && Edit(a, t).editor.tasks == a.editor.tasks
    ensures ChangeInput(a, value).message == a.message
    ensures a.editor.isEditing && a.editor.currentEditId == Editor.Some(id) ==>
              var e := Delete(a, id).editor; !e.isEditing && e.currentEditId == Editor.None && e.input == ""
    ensures !(a.editor.isEditing && a.editor.currentEditId == Editor.Some(id)) ==>
              var e := Delete(a, id).editor;
              e.isEditing == a.editor.isEditing && e.currentEditId == a.editor.currentEditId && e.input == a.editor.input
  {
  }

  /** Expiry clears the message and nothing else; afterwards no further expiry is pending. */
  lemma ExpireClearsOnlyMessage(a: AppState)
    requires ExpiryPending(a)
    ensures Expire(a).editor == a.editor
    ensures Expire(a).message == "" && !ExpiryPending(Expire(a))
  {
  }

  /** Every handler keeps `isEditing` and `currentEditId` in agreement. */
  lemma EditInvariantPreserved(a: AppState, newId: TaskId, id: TaskId, t: Task, value: string)
    requires Editor.EditInvariant(a.editor)
    ensures Editor.EditInvariant(Submit(a, newId).editor)
    ensures Editor.EditInvariant(Delete(a, id).editor)
    ensures Editor.EditInvariant(Edit(a, t).editor)
    ensures Editor.EditInvariant(ChangeInput(a, value).editor)
    ensures ExpiryPending(a) ==> Editor.EditInvariant(Expire(a).editor)
  {
    Editor.EditInvariantPreserved(a.editor, newId, id, t, value);
  }

  /** Add "Buy milk": the message reads "Task added!" until the timer fires, then it is empty
      and the task is still there. */
  lemma NoticeScenario(id: TaskId)
    ensures var a1 := Submit(ChangeInput(Initial, "Buy milk"), id);
            && a1.message == "Task added!"
            && Expire(a1) == AppState(Editor.EditorState([Task(id, "Buy milk")], "", false, Editor.None), "")
  {
    Editor.NotBlank("Buy milk");
  }

  /** The later version of the component: the four task-list fields plus `message`. */
  class Component {
    var tasks: seq<Task>
    var input: string
    var isEditing: bool
    var currentEditId: Editor.Option<TaskId>
    var message: string

    /** The component's state as a value. */
    function State(): AppState
      reads this
    {
      AppState(Editor.EditorState(tasks, input, isEditing, currentEditId), message)
    }

    /** The edit-session fields agree and no stored text is blank, which every handler keeps true. */
    predicate Valid()
      reads this
    {
      Editor.EditInvariant(State().editor) && Editor.TextsNotBlank(State().editor)
    }

    constructor ()
      ensures Valid()
      ensures State() == Initial
    {
      tasks := [];
      input := "";
      isEditing := false;
      currentEditId := Editor.None;
      message := "";
    }

    /** The input box's change handler. */
    method SetInput(value: string)
      requires Valid()
      modifies this
      ensures Valid()
      ensures State() == ChangeInput(old(State()), value)
    {
      input := value;
    }

    /** `addOrUpdateTask`; `newId` stands for the clock reading the new task takes. */
    method AddOrUpdateTask(newId: TaskId)
      requires Valid()
      modifies this
      ensures Valid()
      ensures State() == Submit(old(State()), newId)
      ensures !IsBlank(old(input)) ==> input == "" && !isEditing && currentEditId == Editor.None && message != ""
    {
      Editor.SubmitKeepsTextsNotBlank(State().editor, newId);
      if IsBlank(input) {
        return;
      }
      if isEditing {
        if currentEditId.Some? {
          tasks := WithText(tasks, currentEditId.value, input);
        }
        message := UpdatedMessage;
        isEditing := false;
        currentEditId := Editor.None;
      } else {
        tasks := tasks + [Task(newId, input)];
        message := AddedMessage;
      }
      input := "";
    }

    /** `deleteTask(id)`. */
    method DeleteTask(id: TaskId)
      requires Valid()
      modifies this
      ensures Valid()
      ensures State() == Delete(old(State()), id)
    {
      Editor.DeleteKeepsTextsNotBlank(State().editor, id);
      tasks := Without(tasks, id);
      if isEditing && currentEditId == Editor.Some(id) {
        isEditing := false;
        currentEditId := Editor.None;
        input := "";
      }
    }

    /** `editTask(task)`. */
    method EditTask(task: Task)
      requires Valid()
      modifies this
      ensures Valid()
      ensures State() == Edit(old(State()), task)
    {
      input := task.text;
      isEditing := true;
      currentEditId := Editor.Some(task.id);
    }

    /** The clearing timer firing; it is only scheduled while a message is shown. */
    method ExpireMessage()
      requires Valid() && message != ""
      modifies this
      ensures Valid()
      ensures State() == Expire(old(State()))
    {
      message := "";
    }
  }
}
