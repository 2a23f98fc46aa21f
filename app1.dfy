/** The first version of the component: four pieces of state updated in place by its
    handlers. Each handler is specified by the matching transition of `Editor`. */
module App1 {
  import opened JsString
  import opened TaskList
  import opened Editor

  class Component {
    var tasks: seq<Task>
    var input: string
    var isEditing: bool
    var currentEditId: Option<TaskId>

    /** The component's state as a value. */
    function State(): EditorState
      reads this
    {
      EditorState(tasks, input, isEditing, currentEditId)
    }

    /** The edit-session fields agree and no stored text is blank, which every handler keeps true. */
    predicate Valid()
      reads this
    {
      EditInvariant(State()) && TextsNotBlank(State())
    }

    constructor ()
      ensures Valid()
      ensures State() == Initial
    {
      tasks := [];
      input := "";
      isEditing := false;
      currentEditId := None;
    }

    /** The input box's change handler. */
    method SetInput(value: string)
      requires Valid()
      modifies this
      ensures Valid()
      ensures State() == ChangeInput(old(State()), value)
    {
      input := value;
    }

    /** `addOrUpdateTask`; `newId` stands for the clock reading the new task takes. */
    method AddOrUpdateTask(newId: TaskId)
      requires Valid()
      modifies this
      ensures Valid()
      ensures State() == Submit(old(State()), newId).state
      ensures !IsBlank(old(input)) ==> input == "" && !isEditing && currentEditId == None
    {
      SubmitKeepsTextsNotBlank(State(), newId);
      if IsBlank(input) {
        return;
      }
      if isEditing {
        if currentEditId.Some? {
          tasks := WithText(tasks, currentEditId.value, input);
        }
        isEditing := false;
        currentEditId := None;
      } else {
        tasks := tasks + [Task(newId, input)];
      }
      input := "";
    }

    /** `deleteTask(id)`. */
    method DeleteTask(id: TaskId)
      requires Valid()
      modifies this
      ensures Valid()
      ensures State() == Delete(old(State()), id)
    {
      DeleteKeepsTextsNotBlank(State(), id);
      tasks := Without(tasks, id);
      if isEditing && currentEditId == Some(id) {
        isEditing := false;
        currentEditId := None;
        input := "";
      }
    }

    /** `editTask(task)`. */
    method EditTask(task: Task)
      requires Valid()
      modifies this
      ensures Valid()
      ensures State() == Edit(old(State()), task)
    {
      input := task.text;
      isEditing := true;
      currentEditId := Some(task.id);
    }
  }
}
