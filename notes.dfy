/**
 * The markdown notes editor: a title and a content field shared by two modes,
 * create (`isEditing` false) and edit (`isEditing` true, `editingNoteId` naming
 * the note). The hosted table is outside the model: each handler reports the
 * request it sends, and whether the store accepted it is a parameter.
 */
module MarkdownNotes {
  import opened Wrappers

  /** A row of the `notes` table. */
  datatype Note = Note(id: int, title: string, content: string, createdAt: int)

  /** The remote call a handler sends; `UpdateNote` carries `editingNoteId`, which may be `null`. */
  datatype Request =
    | InsertNote(title: string, content: string)
    | UpdateNote(target: Option<int>, title: string, content: string)
    | DeleteNote(noteId: int)

  datatype EditorState = EditorState(
    notes: seq<Note>, noteTitle: string, noteText: string, isEditing: bool, editingNoteId: Option<int>)

  /** What a handler leaves behind: the new state, the request it sent, and whether it then re-fetches the list. */
  datatype Step = Step(state: EditorState, request: Option<Request>, refetch: bool)

  const Initial: EditorState := EditorState([], "", "", false, None)

  /** Create mode has no note id; edit mode has one. */
  ghost predicate ModeConsistent(s: EditorState) {
    s.isEditing <==> s.editingNoteId.Some?
  }

  /** Looking a note up by id: the first note with that id, if any. */
  function Find(notes: seq<Note>, id: int): (r: Option<Note>)
    ensures r.None? <==> forall n :: n in notes ==> n.id != id
    ensures r.Some? ==> r.value.id == id
    ensures r.Some? ==> exists k :: 0 <= k < |notes| && notes[k] == r.value && forall j :: 0 <= j < k ==> notes[j].id != id
  {
    if notes == [] then None
    else if notes[0].id == id then Some(notes[0])
    else
      var r := Find(notes[1..], id);
      assert notes == [notes[0]] + notes[1..];
      assert r.Some? ==> exists k :: 0 <= k < |notes| && notes[k] == r.value && forall j :: 0 <= j < k ==> notes[j].id != id by {
        if r.Some? {
          var k :| 0 <= k < |notes[1..]| && notes[1..][k] == r.value && forall j :: 0 <= j < k ==> notes[1..][j].id != id;
          assert notes[k + 1] == r.value;
          assert forall j :: 0 <= j < k + 1 ==> notes[j].id != id by {
            forall j | 0 <= j < k + 1 ensures notes[j].id != id {
              if j > 0 { assert notes[j] == notes[1..][j - 1]; }
            }
          }
        }
      }
      r
  }

  /** Typing into the title field. */
  function TitleChange(s: EditorState, title: string): (r: EditorState)
    ensures r.noteTitle == title && r.(noteTitle := s.noteTitle) == s
  {
    s.(noteTitle := title)
  }

  /** Typing into the content field. */
  function TextChange(s: EditorState, text: string): (r: EditorState)
    ensures r.noteText == text && r.(noteText := s.noteText) == s
  {
    s.(noteText := text)
  }

  /** `createNote`: both fields must be non-empty; the fields are cleared only when the insert succeeds. */
  function Create(s: EditorState, insertOk: bool): (r: Step)
    ensures r.request.Some? <==> s.noteText != "" && s.noteTitle != ""
    ensures r.request.Some? ==> r.request.value.InsertNote?
    ensures r.refetch <==> r.request.Some? && insertOk
    ensures r.state == (if r.refetch then s.(noteText := "", noteTitle := "") else s)
  {
    if s.noteText == "" || s.noteTitle == "" then Step(s, None, false)
    else
      Step(if insertOk then s.(noteText := "", noteTitle := "") else s,
           Some(InsertNote(s.noteTitle, s.noteText)), insertOk)
  }

  /** `editNote`: loads the note into the fields and enters edit mode. Without such a note,
      reading `note.title` throws and nothing changes. */
  function Edit(s: EditorState, id: int): (r: EditorState)
    ensures r.notes == s.notes
    ensures (forall n :: n in s.notes ==> n.id != id) ==> r == s
    ensures r != s ==> r.isEditing && r.editingNoteId == Some(id)
    ensures r != s ==> exists n :: n in s.notes && n.id == id && r.noteTitle == n.title && r.noteText == n.content
  {
    match Find(s.notes, id)
    case None => s
    case Some(n) => s.(noteTitle := n.title, noteText := n.content, isEditing := true, editingNoteId := Some(id))
  }

  /** `updateNote`: both fields must be non-empty; a successful update returns to create mode
      with empty fields, a failed one leaves everything as it was. */
  function Update(s: EditorState, updateOk: bool): (r: Step)
    ensures r.request.Some? <==> s.noteText != "" && s.noteTitle != ""
    ensures r.request.Some? ==> r.request.value == UpdateNote(s.editingNoteId, s.noteTitle, s.noteText)
    ensures r.refetch <==> r.request.Some? && updateOk
    ensures r.state == (if r.refetch then s.(isEditing := false, editingNoteId := None, noteText := "", noteTitle := "") else s)
  {
    if s.noteText == "" || s.noteTitle == "" then Step(s, None, false)
    else
      Step(if updateOk then s.(isEditing := false, editingNoteId := None, noteText := "", noteTitle := "") else s,
           Some(UpdateNote(s.editingNoteId, s.noteTitle, s.noteText)), updateOk)
  }

  /** `deleteNote`: asks for confirmation; the fields and the mode are never touched. */
  function Delete(s: EditorState, id: int, confirmed: bool, deleteOk: bool): (r: Step)
    ensures r.state == s
    ensures r.request.Some? <==> confirmed
    ensures r.request.Some? ==> r.request.value == DeleteNote(id)
    ensures r.refetch <==> confirmed && deleteOk
  {
    if confirmed then Step(s, Some(DeleteNote(id)), deleteOk) else Step(s, None, false)
  }

  /** `fetchNotes` completing: the list is replaced by the rows received, or kept on error. */
  function Refresh(s: EditorState, fetched: Option<seq<Note>>): (r: EditorState)
    ensures r.notes == if fetched.Some? then fetched.value else s.notes
    ensures r.(notes := s.notes) == s
  {
    match fetched
    case None => s
    case Some(rows) => s.(notes := rows)
  }

  /** The one button under the fields: update in edit mode, create otherwise. */
  function Submit(s: EditorState, ok: bool): (r: Step)
    ensures r.request.Some? ==> (r.request.value.UpdateNote? <==> s.isEditing)
    ensures r.request.Some? ==> r.request.value.InsertNote? || r.request.value.UpdateNote?
    ensures r.state == s || !r.state.isEditing
  {
    if s.isEditing then Update(s, ok) else Create(s, ok)
  }

  /** Every handler keeps the mode flag and the note id in step. */
  lemma ModeConsistentPreserved(s: EditorState, id: int, ok: bool, confirmed: bool, text: string, fetched: Option<seq<Note>>)
    requires ModeConsistent(s)
    ensures ModeConsistent(Initial)
    ensures ModeConsistent(TitleChange(s, text)) && ModeConsistent(TextChange(s, text))
    ensures ModeConsistent(Create(s, ok).state) && ModeConsistent(Update(s, ok).state)
    ensures ModeConsistent(Edit(s, id)) && ModeConsistent(Delete(s, id, confirmed, ok).state)
    ensures ModeConsistent(Refresh(s, fetched))
  {
  }

  /** An empty title or content sends nothing and changes nothing, in either mode. */
  lemma EmptyFieldRejected(s: EditorState, ok: bool)
    requires s.noteText == "" || s.noteTitle == ""
    ensures Submit(s, ok) == Step(s, None, false)
  {
  }

  /** Creating never enters edit mode, and a failed insert keeps what was typed. */
  lemma CreateStaysInCreateMode(s: EditorState, ok: bool)
    requires !s.isEditing && ModeConsistent(s)
    ensures var t := Submit(s, ok).state; !t.isEditing && t.editingNoteId == None
    ensures !ok ==> Submit(s, ok).state == s
  {
  }

  /** A create with both fields filled sends them as a new row; a successful insert empties the
      fields and re-fetches the list, a failed one keeps what was typed. */
  lemma CreateSendsFields(s: EditorState, ok: bool)
    requires !s.isEditing && s.noteTitle != "" && s.noteText != ""
    ensures Submit(s, ok).request == Some(InsertNote(s.noteTitle, s.noteText))
    ensures Submit(s, ok).refetch == ok
    ensures ok ==> Submit(s, ok).state == s.(noteTitle := "", noteText := "")
  {
  }

  /** An update with both fields filled is sent for `editingNoteId`; success returns to create
      mode with empty fields, failure keeps the mode, the note id and the fields. */
  lemma UpdateOutcome(s: EditorState, ok: bool)
    requires s.isEditing && s.noteTitle != "" && s.noteText != ""
    ensures Submit(s, ok).request == Some(UpdateNote(s.editingNoteId, s.noteTitle, s.noteText))
    ensures Submit(s, ok).refetch == ok
    ensures ok ==> var t := Submit(s, ok).state;
      !t.isEditing && t.editingNoteId == None && t.noteTitle == "" && t.noteText == "" && t.notes == s.notes
    ensures !ok ==> Submit(s, ok).state == s
  {
  }

  /** Editing loads the first note with the id into the fields and enters edit mode for that id;
      an id with no note leaves the editor as it was. */
  lemma EditLoadsFoundNote(s: EditorState, id: int)
    ensures (forall n :: n in s.notes ==> n.id != id) ==> Edit(s, id) == s
    ensures forall k :: 0 <= k < |s.notes| && s.notes[k].id == id && (forall j :: 0 <= j < k ==> s.notes[j].id != id) ==>
      Edit(s, id) == s.(noteTitle := s.notes[k].title, noteText := s.notes[k].content, isEditing := true, editingNoteId := Some(id))
  {
    var r := Find(s.notes, id);
    if r.Some? {
      var i :| 0 <= i < |s.notes| && s.notes[i] == r.value && forall j :: 0 <= j < i ==> s.notes[j].id != id;
      forall k | 0 <= k < |s.notes| && s.notes[k].id == id && (forall j :: 0 <= j < k ==> s.notes[j].id != id)
        ensures k == i
      {
      }
    }
  }

  /** Editing a listed note and pressing the button sends an update of exactly that note with the
      note's own title and content, and a successful update ends edit mode with empty fields. */
  lemma {:induction false} EditThenSubmitUpdatesThatNote(s: EditorState, k: int, ok: bool)
    requires 0 <= k < |s.notes| && forall j :: 0 <= j < |s.notes| && j != k ==> s.notes[j].id != s.notes[k].id
    requires s.notes[k].title != "" && s.notes[k].content != ""
    ensures var n := s.notes[k]; var step := Submit(Edit(s, n.id), ok);
      && step.request == Some(UpdateNote(Some(n.id), n.title, n.content))
      && step.refetch == ok
      && (ok ==> step.state == s.(isEditing := false, editingNoteId := None, noteTitle := "", noteText := ""))
  {
    var n := s.notes[k];
    var r := Find(s.notes, n.id);
    assert r.Some? by { assert n in s.notes; }
    var i :| 0 <= i < |s.notes| && s.notes[i] == r.value && forall j :: 0 <= j < i ==> s.notes[j].id != n.id;
    assert i == k;
  }

  /** Deleting the note being edited keeps edit mode: a later update is still sent for its id. */
  lemma DeleteKeepsEditTarget(s: EditorState, id: int, confirmed: bool, deleteOk: bool, fetched: Option<seq<Note>>)
    requires s.isEditing && s.editingNoteId == Some(id) && s.noteTitle != "" && s.noteText != ""
    ensures var t := Refresh(Delete(s, id, confirmed, deleteOk).state, fetched);
      t.isEditing && Submit(t, true).request == Some(UpdateNote(Some(id), s.noteTitle, s.noteText))
  {
  }

  /** The component's state, one field per `useState` hook the handlers use. */
  class NotesApp {
    var notes: seq<Note>
    var noteTitle: string
    var noteText: string
    var isEditing: bool
    var editingNoteId: Option<int>

    function State(): EditorState
      reads this
    {
      EditorState(notes, noteTitle, noteText, isEditing, editingNoteId)
    }

    constructor ()
      ensures State() == Initial
    {
      notes, noteTitle, noteText, isEditing, editingNoteId := [], "", "", false, None;
    }

    method HandleTitleChange(title: string)
      modifies this
      ensures State() == TitleChange(old(State()), title)
    {
      noteTitle := title;
    }

    method HandleTextChange(text: string)
      modifies this
      ensures State() == TextChange(old(State()), text)
    {
      noteText := text;
    }

    method CreateNote(insertOk: bool) returns (request: Option<Request>, refetch: bool)
      modifies this
      ensures Step(State(), request, refetch) == Create(old(State()), insertOk)
    {
      if noteText == "" || noteTitle == "" {
        return None, false;
      }
      request := Some(InsertNote(noteTitle, noteText));
      if !insertOk {
        return request, false;
      }
      noteText := "";
      noteTitle := "";
      refetch := true;
    }

    method EditNote(id: int)
      modifies this
      ensures State() == Edit(old(State()), id)
    {
      var found := Find(notes, id);
      if found.Some? {
        noteTitle := found.value.title;
        noteText := found.value.content;
        isEditing := true;
        editingNoteId := Some(id);
      }
    }

    method UpdateNote(updateOk: bool) returns (request: Option<Request>, refetch: bool)
      modifies this
      ensures Step(State(), request, refetch) == Update(old(State()), updateOk)
    {
      if noteText == "" || noteTitle == "" {
        return None, false;
      }
      request := Some(Request.UpdateNote(editingNoteId, noteTitle, noteText));
      if !updateOk {
        return request, false;
      }
      isEditing := false;
      editingNoteId := None;
      noteText := "";
      noteTitle := "";
      refetch := true;
    }

    method DeleteNote(id: int, confirmed: bool, deleteOk: bool) returns (request: Option<Request>, refetch: bool)
      ensures Step(State(), request, refetch) == Delete(State(), id, confirmed, deleteOk)
    {
      if confirmed {
        request, refetch := Some(Request.DeleteNote(id)), deleteOk;
      } else {
        request, refetch := None, false;
      }
    }

    method FetchNotesDone(fetched: Option<seq<Note>>)
      modifies this
      ensures State() == Refresh(old(State()), fetched)
    {
      if fetched.Some? {
        notes := fetched.value;
      }
    }

    /** The create/update button. */
    method ClickButton(ok: bool) returns (request: Option<Request>, refetch: bool)
      modifies this
      ensures Step(State(), request, refetch) == Submit(old(State()), ok)
    {
      if isEditing {
        request, refetch := UpdateNote(ok);
      } else {
        request, refetch := CreateNote(ok);
      }
    }
  }
}
