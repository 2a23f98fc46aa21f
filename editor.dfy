/** The state machine shared by both versions of the component: the task list, the
    pending input, and the edit session (`isEditing`, `currentEditId`). Each handler is
    one atomic transition from the state before it to the state after it. */
module Editor {
  import opened JsString
  import opened TaskList

  datatype Option<T> = None | Some(value: T)

  datatype EditorState = EditorState(
    tasks: seq<Task>,
    input: string,
    isEditing: bool,
    currentEditId: Option<TaskId>)

  /** The state the component starts in: no tasks, empty input, not editing. */
  const Initial := EditorState([], "", false, None)

  /** What a submit did; the later version turns it into a status message. */
  datatype Outcome = Ignored | Added | Updated

  datatype Submitted = Submitted(state: EditorState, outcome: Outcome)

  /** The two edit-session fields agree: editing exactly when there is a target id. */
  predicate EditInvariant(s: EditorState) {
    s.isEditing <==> s.currentEditId.Some?
  }

  /** The edit target, if any, is the id of a task in the list. */
  predicate TargetPresent(s: EditorState) {
    s.currentEditId.Some? ==> HasId(s.tasks, s.currentEditId.value)
  }

  /** Every stored text passed the blank guard when it was written. */
  predicate TextsNotBlank(s: EditorState) {
    forall t :: t in s.tasks ==> !IsBlank(t.text)
  }

  /** `addOrUpdateTask`, with `newId` the clock reading the new task would get.
      A blank input is ignored; otherwise the input is added as a new task or written
      into the targeted task, and the input is cleared. */
  function Submit(s: EditorState, newId: TaskId): (r: Submitted)
    ensures r.outcome == Ignored <==> IsBlank(s.input)
    ensures r.outcome == Ignored ==> r.state == s
    ensures r.outcome == Added <==> !IsBlank(s.input) && !s.isEditing
    ensures r.outcome != Ignored ==> r.state.input == "" && !r.state.isEditing
  {
    if IsBlank(s.input) then Submitted(s, Ignored)
    else if s.isEditing then
      var tasks := if s.currentEditId.Some? then WithText(s.tasks, s.currentEditId.value, s.input) else s.tasks;
      Submitted(EditorState(tasks, "", false, None), Updated)
    else
      Submitted(s.(tasks := s.tasks + [Task(newId, s.input)], input := ""), Added)
  }

  /** `deleteTask(id)`: drop the tasks with that id; if that id is the edit target,
      also end the session and clear the input. */
  function Delete(s: EditorState, id: TaskId): (r: EditorState)
    ensures s.isEditing && s.currentEditId == Some(id) ==>
              !r.isEditing && r.currentEditId == None && r.input == ""
    ensures !(s.isEditing && s.currentEditId == Some(id)) ==>
              r.isEditing == s.isEditing && r.currentEditId == s.currentEditId && r.input == s.input
  {
    var tasks := Without(s.tasks, id);
    if s.isEditing && s.currentEditId == Some(id) then EditorState(tasks, "", false, None)
    else s.(tasks := tasks)
  }

  /** `editTask(task)`: load the task's text into the input and target its id. */
  function Edit(s: EditorState, t: Task): (r: EditorState)
    ensures r.tasks == s.tasks
    ensures r.isEditing && r.currentEditId == Some(t.id) && r.input == t.text
  {
    s.(input := t.text, isEditing := true, currentEditId := Some(t.id))
  }

  /** The input box's change handler: replace the pending input. */
  function ChangeInput(s: EditorState, value: string): (r: EditorState)
    ensures r.input == value
    ensures r.tasks == s.tasks && r.isEditing == s.isEditing && r.currentEditId == s.currentEditId
  {
    s.(input := value)
  }

  /** A non-blank submit outside an edit session appends exactly one task, carrying the
      new id and the input, after an unchanged prefix, and leaves the session alone. */
  lemma SubmitAppends(s: EditorState, newId: TaskId)
    requires !IsBlank(s.input) && !s.isEditing
    ensures var r := Submit(s, newId);
      && r.outcome == Added
      && |r.state.tasks| == |s.tasks| + 1
      && r.state.tasks[..|s.tasks|] == s.tasks
      && r.state.tasks[|s.tasks|] == Task(newId, s.input)
      && r.state.currentEditId == s.currentEditId
  {
  }

  /** A non-blank submit in an edit session keeps the length and every id, gives the
      input as text to the tasks with the target id, leaves every other task as it was,
      and leaves the list unchanged when no task has the target id. */
  lemma SubmitUpdates(s: EditorState, newId: TaskId, target: TaskId)
    requires !IsBlank(s.input) && s.isEditing && s.currentEditId == Some(target)
    ensures var r := Submit(s, newId);
      && r.outcome == Updated
      && |r.state.tasks| == |s.tasks|
      && (forall i :: 0 <= i < |s.tasks| ==> r.state.tasks[i].id == s.tasks[i].id)
      && (forall i :: 0 <= i < |s.tasks| && s.tasks[i].id == target ==> r.state.tasks[i].text == s.input)
      && (forall i :: 0 <= i < |s.tasks| && s.tasks[i].id != target ==> r.state.tasks[i] == s.tasks[i])
      && (!HasId(s.tasks, target) ==> r.state.tasks == s.tasks)
  {
    var r := Submit(s, newId);
    forall i | 0 <= i < |s.tasks| && s.tasks[i].id != target ensures r.state.tasks[i] == s.tasks[i] {
    }
    if !HasId(s.tasks, target) {
      WithTextAbsent(s.tasks, target, s.input);
    }
  }

  /** When the target is present, the update really lands: some task ends up with the input as text. */
  lemma SubmitUpdateReachesTarget(s: EditorState, newId: TaskId)
    requires !IsBlank(s.input) && s.isEditing && s.currentEditId.Some? && TargetPresent(s)
    ensures exists i :: 0 <= i < |s.tasks| && Submit(s, newId).state.tasks[i] == Task(s.currentEditId.value, s.input)
  {
    var i :| 0 <= i < |s.tasks| && s.tasks[i].id == s.currentEditId.value;
    assert Submit(s, newId).state.tasks[i] == Task(s.currentEditId.value, s.input);
  }

  /** The text stored is the raw input, white space included; trimming only decides blankness. */
  lemma SubmitStoresRawInput()
    ensures var s := Initial.(input := " Buy milk ");
            var r := Submit(s, 1);
            r.state.tasks == [Task(1, " Buy milk ")] && Trim(s.input) == "Buy milk"
  {
    var raw := " Buy milk ";
    assert raw[1..] == "Buy milk " && !IsWhiteSpace("Buy milk "[0]);
    assert TrimStart(raw) == "Buy milk ";
    assert "Buy milk "[..8] == "Buy milk" && !IsWhiteSpace("Buy milk"[7]);
    assert TrimEnd("Buy milk ") == "Buy milk";
    assert Trim(raw) == "Buy milk";
  }

  /** Every successful submit ends with an empty input and no edit session at all. */
  lemma SubmitSuccessLeavesEditMode(s: EditorState, newId: TaskId)
    requires EditInvariant(s) && !IsBlank(s.input)
    ensures var r := Submit(s, newId).state;
            r.input == "" && !r.isEditing && r.currentEditId == None
  {
  }

  /** Deleting keeps exactly the tasks whose id differs, each as often as before, in their old order. */
  lemma DeleteFilters(s: EditorState, id: TaskId)
    ensures var r := Delete(s, id);
      && !HasId(r.tasks, id)
      && (forall t: Task :: t in r.tasks <==> t in s.tasks && t.id != id)
      && (forall t: Task :: t.id != id ==> multiset(r.tasks)[t] == multiset(s.tasks)[t])
      && IsSubsequence(r.tasks, s.tasks)
  {
    var r := Delete(s, id);
    WithoutRemovesId(s.tasks, id);
    forall t ensures t in r.tasks <==> t in s.tasks && t.id != id {
      assert t in r.tasks <==> multiset(r.tasks)[t] > 0;
      assert t in s.tasks <==> multiset(s.tasks)[t] > 0;
    }
  }

  /** Deleting an id that no task has is a no-op on the whole state, given that the
      edit target is a present task. */
  lemma DeleteAbsent(s: EditorState, id: TaskId)
    requires TargetPresent(s) && !HasId(s.tasks, id)
    ensures Delete(s, id) == s
  {
    WithoutAbsent(s.tasks, id);
  }

  /** Deleting twice is deleting once. */
  lemma DeleteIdempotent(s: EditorState, id: TaskId)
    ensures Delete(Delete(s, id), id) == Delete(s, id)
  {
    WithoutIdempotent(s.tasks, id);
  }

  /** Every handler keeps `isEditing` and `currentEditId` in agreement. */
  lemma EditInvariantPreserved(s: EditorState, newId: TaskId, id: TaskId, t: Task, value: string)
    requires EditInvariant(s)
    ensures EditInvariant(Submit(s, newId).state)
    ensures EditInvariant(Delete(s, id))
    ensures EditInvariant(Edit(s, t))
    ensures EditInvariant(ChangeInput(s, value))
  {
  }

  /** A submit writes a text only after the blank guard, so no stored text is ever blank. */
  lemma SubmitKeepsTextsNotBlank(s: EditorState, newId: TaskId)
    requires TextsNotBlank(s)
    ensures TextsNotBlank(Submit(s, newId).state)
  {
    var r := Submit(s, newId).state;
    forall u | u in r.tasks ensures !IsBlank(u.text) {
      var i :| 0 <= i < |r.tasks| && r.tasks[i] == u;
      if i < |s.tasks| && u.text != s.input {
        assert s.tasks[i].text == u.text;
      }
    }
  }

  /** A delete only drops tasks, so every text left was there before. */
  lemma DeleteKeepsTextsNotBlank(s: EditorState, id: TaskId)
    requires TextsNotBlank(s)
    ensures TextsNotBlank(Delete(s, id))
  {
    var r := Delete(s, id);
    forall u | u in r.tasks ensures !IsBlank(u.text) {
      assert multiset(r.tasks)[u] > 0;
      assert u in s.tasks;
    }
  }

  /** The initial list has no texts, and editing and typing leave the list alone. */
  lemma OtherHandlersKeepTextsNotBlank(s: EditorState, t: Task, value: string)
    requires TextsNotBlank(s)
    ensures TextsNotBlank(Initial)
    ensures TextsNotBlank(Edit(s, t)) && TextsNotBlank(ChangeInput(s, value))
  {
  }

  /** A submit keeps the edit target present: an append keeps every old task, and an
      update ends the session. */
  lemma SubmitKeepsTargetPresent(s: EditorState, newId: TaskId)
    requires TargetPresent(s)
    ensures TargetPresent(Submit(s, newId).state)
  {
    var sub := Submit(s, newId);
    if sub.outcome == Added && s.currentEditId.Some? {
      var i :| 0 <= i < |s.tasks| && s.tasks[i].id == s.currentEditId.value;
      assert sub.state.tasks[i] == s.tasks[i];
    }
  }

  /** A delete keeps the edit target present: deleting the target ends the session, and
      deleting any other id keeps the target's task. */
  lemma DeleteKeepsTargetPresent(s: EditorState, id: TaskId)
    requires EditInvariant(s) && TargetPresent(s)
    ensures TargetPresent(Delete(s, id))
  {
    var d := Delete(s, id);
    if d.currentEditId.Some? {
      var i :| 0 <= i < |s.tasks| && s.tasks[i].id == d.currentEditId.value;
      WithoutKeepsOthers(s.tasks, id, s.tasks[i]);
      var j :| 0 <= j < |d.tasks| && d.tasks[j] == s.tasks[i];
    }
  }

  /** Opening a task of the list for editing targets a present task, as the rendered
      Edit buttons do; typing into the input never touches the target. */
  lemma EditKeepsTargetPresent(s: EditorState, t: Task, value: string)
    requires TargetPresent(s) && t in s.tasks
    ensures TargetPresent(Edit(s, t))
    ensures TargetPresent(ChangeInput(s, value))
  {
    var i :| 0 <= i < |s.tasks| && s.tasks[i] == t;
    assert Edit(s, t).tasks[i].id == t.id;
  }

  /** With unique ids, opening a task for editing and submitting the loaded text
      unchanged gives back the same list. */
  lemma EditThenSubmitUnchanged(s: EditorState, t: Task, newId: TaskId)
    requires UniqueIds(s.tasks) && t in s.tasks && !IsBlank(t.text)
    ensures Submit(Edit(s, t), newId).state.tasks == s.tasks
    ensures Submit(Edit(s, t), newId).state == s.(input := "", isEditing := false, currentEditId := None)
  {
    var e := Edit(s, t);
    assert Submit(e, newId).state == EditorState(WithText(s.tasks, t.id, t.text), "", false, None);
    WithTextOwnText(s.tasks, t);
  }

  /** Add "Buy milk", open it for editing, submit "Buy oat milk": one task with the new
      text and the same id, and the session is over. */
  lemma EditScenario(id: TaskId, later: TaskId)
    ensures var s1 := Submit(ChangeInput(Initial, "Buy milk"), id).state;
            var s2 := Edit(s1, s1.tasks[0]);
            var s3 := Submit(ChangeInput(s2, "Buy oat milk"), later).state;
            s1.tasks == [Task(id, "Buy milk")]
            && s3 == EditorState([Task(id, "Buy oat milk")], "", false, None)
  {
    NotBlank("Buy milk");
    NotBlank("Buy oat milk");
    var s1 := Submit(ChangeInput(Initial, "Buy milk"), id).state;
    var s2 := Edit(s1, s1.tasks[0]);
    var s3 := Submit(ChangeInput(s2, "Buy oat milk"), later).state;
    assert s3.tasks[0] == Task(id, "Buy oat milk");
  }

  /** Add "A", add "B", delete "A": only "B" is left. */
  lemma DeleteScenario(a: TaskId, b: TaskId)
    requires a != b
    ensures var s1 := Submit(ChangeInput(Initial, "A"), a).state;
            var s2 := Submit(ChangeInput(s1, "B"), b).state;
            Delete(s2, a).tasks == [Task(b, "B")]
  {
    NotBlank("A");
    NotBlank("B");
    var s1 := Submit(ChangeInput(Initial, "A"), a).state;
    var s2 := Submit(ChangeInput(s1, "B"), b).state;
    assert s2.tasks == [Task(a, "A")] + [Task(b, "B")];
    WithoutAppend([Task(a, "A")], [Task(b, "B")], a);
  }

  /** A string whose first character is not white space is not blank. */
  lemma NotBlank(text: string)
    requires text != [] && !IsWhiteSpace(text[0])
    ensures !IsBlank(text)
  {
    BlankIffAllWhiteSpace(text);
  }
}
