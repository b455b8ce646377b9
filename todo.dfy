/**
 * The todo list editor: a task array, an input field, a status message and
 * `editingIndex`, which is -1 in add mode and otherwise names the task being edited.
 * The transitions are functions on `TodoState`; the class `TodoList` holds the
 * same state in fields and its handlers are proved to follow those functions.
 */
module Todo {
  import opened Text

  /** A value held in the task array or in the input field: a string, or JavaScript's `undefined`. */
  datatype Value = Str(text: string) | Undefined

  const AddedMessage: string := "Task added successfully!"
  const UpdatedMessage: string := "Task updated successfully!"

  /** The `editingIndex` of add mode. */
  const NotEditing: int := -1

  datatype TodoState = TodoState(tasks: seq<Value>, task: Value, updateMessage: string, editingIndex: int)

  /** The state the component starts in. */
  const Initial: TodoState := TodoState([], Str(""), "", NotEditing)

  /** `task.trim()` is truthy. On `undefined`, `trim` throws and the handler stops before changing anything. */
  predicate Submittable(v: Value) {
    v.Str? && HasText(v.text)
  }

  /** `handleInputChange`: the input field now holds `text`. */
  function InputChange(s: TodoState, text: string): (r: TodoState)
    ensures r.task == Str(text)
    ensures r.tasks == s.tasks && r.updateMessage == s.updateMessage && r.editingIndex == s.editingIndex
  {
    s.(task := Str(text))
  }

  /** `handleAddTask`. */
  function AddTask(s: TodoState): (r: TodoState)
    ensures r == s || (|r.tasks| == |s.tasks| + 1 && r.tasks[|s.tasks|] == s.task && r.editingIndex == NotEditing)
    ensures r != s ==> Submittable(s.task)
  {
    if Submittable(s.task) then TodoState(s.tasks + [s.task], Str(""), AddedMessage, NotEditing)
    else s
  }

  /** Filtering the array by position: drops the element at position `index`, if any. */
  function WithoutIndex(xs: seq<Value>, index: int): (r: seq<Value>)
    ensures |r| == if 0 <= index < |xs| then |xs| - 1 else |xs|
  {
    if xs == [] then []
    else (if index == 0 then [] else [xs[0]]) + WithoutIndex(xs[1..], index - 1)
  }

  /** `handleDeleteTask`: only the task array changes. */
  function DeleteTask(s: TodoState, index: int): (r: TodoState)
    ensures r.task == s.task && r.updateMessage == s.updateMessage && r.editingIndex == s.editingIndex
    ensures |r.tasks| == if 0 <= index < |s.tasks| then |s.tasks| - 1 else |s.tasks|
  {
    s.(tasks := WithoutIndex(s.tasks, index))
  }

  /** `xs[index]`, which is `undefined` outside the array. */
  function At(xs: seq<Value>, index: int): Value {
    if 0 <= index < |xs| then xs[index] else Undefined
  }

  /** `handleEditTask`: copies the task into the input and enters edit mode. */
  function EditTask(s: TodoState, index: int): (r: TodoState)
    ensures r.tasks == s.tasks && r.updateMessage == s.updateMessage && r.editingIndex == index
    ensures 0 <= index < |s.tasks| ==> r.task == s.tasks[index]
    ensures !(0 <= index < |s.tasks|) ==> r.task == Undefined
  {
    s.(task := At(s.tasks, index), editingIndex := index)
  }

  /** `xs[i] = v` followed by `[...xs]`. A negative index sets a property the spread does not
      copy; an index past the end lengthens the array, and the gap reads as `undefined`. */
  function Assign(xs: seq<Value>, i: int, v: Value): (r: seq<Value>)
    ensures i < 0 ==> r == xs
    ensures 0 <= i ==> |r| == (if i < |xs| then |xs| else i + 1) && r[i] == v
    ensures forall j :: 0 <= j < |xs| && j != i ==> r[j] == xs[j]
    ensures forall j :: |xs| <= j < |r| && j != i ==> r[j] == Undefined
  {
    if i < 0 then xs
    else if i < |xs| then xs[i := v]
    else xs + seq(i - |xs|, _ => Undefined) + [v]
  }

  /** `handleSaveEdit`: writes the input at `editingIndex`, whatever that index now names. */
  function SaveEdit(s: TodoState): (r: TodoState)
    ensures !Submittable(s.task) ==> r == s
    ensures Submittable(s.task) ==> r.task == Str("") && r.editingIndex == NotEditing && r.updateMessage == UpdatedMessage
    ensures Submittable(s.task) && 0 <= s.editingIndex < |s.tasks| ==>
      |r.tasks| == |s.tasks| && r.tasks[s.editingIndex] == s.task
      && forall j :: 0 <= j < |s.tasks| && j != s.editingIndex ==> r.tasks[j] == s.tasks[j]
  {
    if Submittable(s.task) then TodoState(Assign(s.tasks, s.editingIndex, s.task), Str(""), UpdatedMessage, NotEditing)
    else s
  }

  /** What the timer set by `clearMessage` does when it fires. */
  function ClearMessage(s: TodoState): (r: TodoState)
    ensures r.updateMessage == ""
    ensures r.tasks == s.tasks && r.task == s.task && r.editingIndex == s.editingIndex
  {
    s.(updateMessage := "")
  }

  /** The single button: add in add mode, save otherwise. */
  function Submit(s: TodoState): (r: TodoState)
    ensures r == s || (r.editingIndex == NotEditing && r.task == Str("")
      && r.updateMessage == if s.editingIndex == NotEditing then AddedMessage else UpdatedMessage)
    ensures r != s ==> Submittable(s.task)
  {
    if s.editingIndex == NotEditing then AddTask(s) else SaveEdit(s)
  }

  /** Deleting position `index` keeps every other task, in order; an index outside the array removes nothing. */
  lemma {:induction false} WithoutIndexRemovesOnlyThat(xs: seq<Value>, index: int)
    ensures WithoutIndex(xs, index) == if 0 <= index < |xs| then xs[..index] + xs[index + 1..] else xs
  {
    if xs != [] {
      WithoutIndexRemovesOnlyThat(xs[1..], index - 1);
      if 0 < index < |xs| {
        assert xs[..index] == [xs[0]] + xs[1..][..index - 1];
        assert xs[index + 1..] == xs[1..][index..];
      } else if index != 0 {
        assert xs == [xs[0]] + xs[1..];
      }
    }
  }

  /** Blank or whitespace-only input (and `undefined`) leaves every field as it was, in either mode. */
  lemma BlankInputChangesNothing(s: TodoState)
    requires s.task.Undefined? || IsBlank(s.task.text)
    ensures AddTask(s) == s && SaveEdit(s) == s && Submit(s) == s
  {
  }

  /** A successful add puts the input, untrimmed, after the existing tasks, empties the input,
      returns to add mode and reports success; deleting that last position gives the old list back. */
  lemma AddThenDeleteRestores(s: TodoState)
    requires Submittable(s.task)
    ensures |AddTask(s).tasks| == |s.tasks| + 1
    ensures AddTask(s).tasks[..|s.tasks|] == s.tasks && AddTask(s).tasks[|s.tasks|] == s.task
    ensures AddTask(s).task == Str("") && AddTask(s).editingIndex == NotEditing && AddTask(s).updateMessage == AddedMessage
    ensures DeleteTask(AddTask(s), |s.tasks|).tasks == s.tasks
  {
    var t := AddTask(s).tasks;
    WithoutIndexRemovesOnlyThat(t, |s.tasks|);
    assert t[..|s.tasks|] == s.tasks;
  }

  /** Deleting touches neither the input nor the mode; in particular `editingIndex` keeps its
      old value although the positions after the deleted task shift down by one. */
  lemma DeleteKeepsInputAndMode(s: TodoState, index: int)
    ensures DeleteTask(s, index).task == s.task
    ensures DeleteTask(s, index).editingIndex == s.editingIndex
    ensures DeleteTask(s, index).updateMessage == s.updateMessage
    ensures 0 <= index < |s.tasks| ==>
      forall j :: index <= j < |s.tasks| - 1 ==> DeleteTask(s, index).tasks[j] == s.tasks[j + 1]
  {
    if 0 <= index < |s.tasks| {
      WithoutIndexShifts(s.tasks, index);
    }
  }

  /** Edit, type, save with nothing in between: exactly the edited task is replaced, the
      length is kept, and the editor returns to add mode with an empty input. */
  lemma EditThenSaveReplacesOnlyThatTask(s: TodoState, i: int, text: string)
    requires 0 <= i < |s.tasks| && HasText(text)
    ensures Submit(InputChange(EditTask(s, i), text)) == TodoState(s.tasks[i := Str(text)], Str(""), UpdatedMessage, NotEditing)
  {
  }

  /** Saving an edit without retyping gives back the same task list. */
  lemma EditThenSaveUnchangedKeepsTasks(s: TodoState, i: int)
    requires 0 <= i < |s.tasks|
    ensures Submit(EditTask(s, i)).tasks == s.tasks
  {
  }

  /** The stale-index hazard: deleting a task before the one being edited shifts the edited task
      down to `e - 1`, but the save still writes at `e`. The edited task keeps its old text, and
      the task that followed it (if any) is overwritten; if there was none, the text is appended. */
  lemma DeleteBeforeEditedRetargetsSave(s: TodoState, e: int, d: int, text: string)
    requires 0 <= d < e < |s.tasks| && HasText(text)
    ensures var t := Submit(InputChange(DeleteTask(EditTask(s, e), d), text)).tasks;
      && |t| == |s.tasks| - (if e < |s.tasks| - 1 then 1 else 0)
      && t[e - 1] == s.tasks[e]
      && t[e] == Str(text)
  {
    var xs := WithoutIndex(s.tasks, d);
    WithoutIndexShifts(s.tasks, d);
    var u := InputChange(DeleteTask(EditTask(s, e), d), text);
    assert u == TodoState(xs, Str(text), s.updateMessage, e);
    SaveWritesAtIndex(u);
    var t := Assign(xs, e, Str(text));
    assert t[e - 1] == xs[e - 1];
  }

  /** Deleting the task being edited keeps edit mode; the save then overwrites the task that moved
      into its place, or, for the last task, re-appends the deleted position with the new text. */
  lemma DeleteEditedThenSaveWritesNeighbour(s: TodoState, e: int, text: string)
    requires 0 <= e < |s.tasks| && HasText(text)
    ensures var t := Submit(InputChange(DeleteTask(EditTask(s, e), e), text)).tasks;
      && t[e] == Str(text)
      && (forall j :: 0 <= j < e ==> t[j] == s.tasks[j])
      && |t| == |s.tasks| - (if e < |s.tasks| - 1 then 1 else 0)
  {
    var xs := WithoutIndex(s.tasks, e);
    WithoutIndexShifts(s.tasks, e);
    var u := InputChange(DeleteTask(EditTask(s, e), e), text);
    assert u == TodoState(xs, Str(text), s.updateMessage, e);
    SaveWritesAtIndex(u);
    var t := Assign(xs, e, Str(text));
    assert forall j :: 0 <= j < e ==> t[j] == xs[j];
  }

  /** Deleting position `d` keeps the tasks before it and moves each later one down by one. */
  lemma WithoutIndexShifts(xs: seq<Value>, d: int)
    requires 0 <= d < |xs|
    ensures |WithoutIndex(xs, d)| == |xs| - 1
    ensures forall j :: 0 <= j < d ==> WithoutIndex(xs, d)[j] == xs[j]
    ensures forall j :: d <= j < |xs| - 1 ==> WithoutIndex(xs, d)[j] == xs[j + 1]
  {
    WithoutIndexRemovesOnlyThat(xs, d);
  }

  /** Two deletes while editing the last of three tasks leave `editingIndex` two past the end:
      the save pads the array with an `undefined` entry before the new text. */
  lemma StaleSavePadsWithUndefined(a: Value, b: Value, c: Value, text: string)
    requires HasText(text)
    ensures var s := TodoState([a, b, c], Str(""), "", NotEditing);
      Submit(InputChange(DeleteTask(DeleteTask(EditTask(s, 2), 0), 0), text)).tasks == [c, Undefined, Str(text)]
  {
    DeletesWhileEditingLast(a, b, c);
    var u := InputChange(TodoState([c], c, "", 2), text);
    assert u == TodoState([c], Str(text), "", 2);
    SaveWritesAtIndex(u);
    AssignTwoPastSingle(c, Str(text));
  }

  /** Editing the last of three tasks, then deleting the first twice, leaves one task and the stale index 2. */
  lemma DeletesWhileEditingLast(a: Value, b: Value, c: Value)
    ensures var s := TodoState([a, b, c], Str(""), "", NotEditing);
      DeleteTask(DeleteTask(EditTask(s, 2), 0), 0) == TodoState([c], c, "", 2)
  {
    DeleteFirst([a, b, c]);
    assert [a, b, c][1..] == [b, c];
    DeleteFirst([b, c]);
    assert [b, c][1..] == [c];
  }

  /** Writing two positions past a one-task array pads the gap with `undefined`. */
  lemma AssignTwoPastSingle(c: Value, v: Value)
    ensures Assign([c], 2, v) == [c, Undefined, v]
  {
    assert seq(1, _ => Undefined) == [Undefined];
  }

  /** In edit mode with text in the input, the button writes the input at `editingIndex`. */
  lemma SaveWritesAtIndex(u: TodoState)
    requires u.editingIndex != NotEditing && u.task.Str? && HasText(u.task.text)
    ensures Submit(u).tasks == Assign(u.tasks, u.editingIndex, u.task)
  {
    assert Submit(u) == SaveEdit(u);
  }

  /** Deleting position 0 drops the first task. */
  lemma DeleteFirst(xs: seq<Value>)
    requires xs != []
    ensures WithoutIndex(xs, 0) == xs[1..]
  {
    WithoutIndexRemovesOnlyThat(xs, 0);
  }

  /** The component's state, held in fields as React holds `this.state`. */
  class TodoList {
    var tasks: seq<Value>
    var task: Value
    var updateMessage: string
    var editingIndex: int

    function State(): TodoState
      reads this
    {
      TodoState(tasks, task, updateMessage, editingIndex)
    }

    constructor ()
      ensures State() == Initial
    {
      tasks, task, updateMessage, editingIndex := [], Str(""), "", NotEditing;
    }

    method HandleInputChange(text: string)
      modifies this
      ensures State() == InputChange(old(State()), text)
    {
      task := Str(text);
    }

    method HandleAddTask()
      modifies this
      ensures State() == AddTask(old(State()))
    {
      if task.Str? && Trim(task.text) != [] {
        tasks := tasks + [task];
        task := Str("");
        updateMessage := AddedMessage;
        editingIndex := NotEditing;
      }
    }

    method HandleDeleteTask(index: int)
      modifies this
      ensures State() == DeleteTask(old(State()), index)
    {
      tasks := WithoutIndex(tasks, index);
    }

    method HandleEditTask(index: int)
      modifies this
      ensures State() == EditTask(old(State()), index)
    {
      task := if 0 <= index < |tasks| then tasks[index] else Undefined;
      editingIndex := index;
    }

    method HandleSaveEdit()
      modifies this
      ensures State() == SaveEdit(old(State()))
    {
      if task.Str? && Trim(task.text) != [] {
        if 0 <= editingIndex < |tasks| {
          tasks := tasks[editingIndex := task];
        } else if |tasks| <= editingIndex {
          tasks := tasks + seq(editingIndex - |tasks|, _ => Undefined) + [task];
        }
        task := Str("");
        updateMessage := UpdatedMessage;
        editingIndex := NotEditing;
      }
    }

    method HandleClearMessage()
      modifies this
      ensures State() == ClearMessage(old(State()))
    {
      updateMessage := "";
    }

    /** The add/save button of `render`. */
    method ClickButton()
      modifies this
      ensures State() == Submit(old(State()))
    {
      if editingIndex == NotEditing {
        HandleAddTask();
      } else {
        HandleSaveEdit();
      }
    }
  }
}
