/** The member's order notes: the member's notes for the event, newest first,
    the add form with its attachments, and the edit form. Attachments are named
    by reference; uploading them is not part of this model. */
module MemberMyOrderNotes {
  import opened Lists
  import opened Records
  import opened Text
  import opened Store

  type FileRef = string

  function OwnNoteInEvent(memberId: Id, eventId: Id): Note -> bool
  {
    (n: Note) => n.memberId == memberId && n.eventId == eventId
  }

  /** The member's notes for the event, newest first. */
  function MyNotes(notes: seq<Note>, memberId: Id, eventId: Id): (r: seq<Note>)
    ensures forall n :: n in r <==> n in notes && n.memberId == memberId && n.eventId == eventId
    ensures forall n :: multiset(r)[n] == if n.memberId == memberId && n.eventId == eventId then multiset(notes)[n] else 0
    ensures NewestFirst(r, NoteTime)
  {
    FilterCount(notes, OwnNoteInEvent(memberId, eventId));
    var r := SortNewestFirst(Filter(notes, OwnNoteInEvent(memberId, eventId)), NoteTime);
    assert forall n :: n in r <==> n in multiset(r);
    r
  }

  /** The add form: the text typed and the files attached so far. */
  datatype NoteDraft = NoteDraft(content: string, files: seq<FileRef>)

  /** The call the add button makes. */
  datatype NoteCall = CallAddNote(memberId: Id, eventId: Id, content: string, files: seq<FileRef>)

  /** A note is added when its text has something besides white space or a file is attached, and a user
      is signed in. */
  predicate CanAddNote(draft: NoteDraft, currentUser: Option<User>)
  {
    (Trim(draft.content) != "" || |draft.files| > 0) && currentUser.Some?
  }

  /** The add button: a note that may be added is sent with the text as typed, and the form is reset; any
      other draft stays as it is. */
  function AddNoteSubmit(draft: NoteDraft, currentUser: Option<User>, eventId: Id): (r: (Option<NoteCall>, NoteDraft))
    ensures r.0.Some? <==> CanAddNote(draft, currentUser)
    ensures r.0.Some? ==> r.0.value == CallAddNote(currentUser.value.id, eventId, draft.content, draft.files)
                          && r.1 == NoteDraft("", [])
    ensures r.0.None? ==> r.1 == draft
  {
    if CanAddNote(draft, currentUser) then (Some(CallAddNote(currentUser.value.id, eventId, draft.content, draft.files)), NoteDraft("", []))
    else (None, draft)
  }

  /** Text made only of white space, with no file, is never sent. */
  lemma BlankNoteIsRefused(draft: NoteDraft, currentUser: Option<User>, eventId: Id)
    requires forall k :: 0 <= k < |draft.content| ==> IsSpace(draft.content[k])
    requires draft.files == []
    ensures AddNoteSubmit(draft, currentUser, eventId).0.None?
  {
  }

  /** Choosing files appends them after those already attached; none is dropped and the order is kept. */
  function AppendUploads(files: seq<FileRef>, chosen: seq<FileRef>): (r: seq<FileRef>)
    ensures |r| == |files| + |chosen|
    ensures r[..|files|] == files && r[|files|..] == chosen
    ensures multiset(r) == multiset(files) + multiset(chosen)
  {
    files + chosen
  }

  /** Removing a preview takes out exactly that attachment and keeps the others in order. */
  function RemovePreview(files: seq<FileRef>, index: nat): (r: seq<FileRef>)
    ensures index < |files| ==> r == files[..index] + files[index + 1..]
                                && |r| == |files| - 1
                                && multiset(r) == multiset(files) - multiset{files[index]}
    ensures index >= |files| ==> r == files
  {
    if index < |files| then
      CutDropsOne(files, index);
      RemoveAt(files, index)
    else RemoveAt(files, index)
  }

  /** Removing the last attachment chosen gives back the list before the choice. */
  lemma RemoveAfterAppend(files: seq<FileRef>, chosen: FileRef)
    ensures RemovePreview(AppendUploads(files, [chosen]), |files|) == files
  {
    assert (files + [chosen])[..|files|] == files;
  }

  /** The edit form: the note being edited (its text and kept images as edited) and the files newly
      attached. */
  datatype EditState = EditState(open: bool, editing: Option<Note>, newFiles: seq<FileRef>)

  /** Opening the form for a note starts with no new files. */
  function OpenEditModal(note: Note): (s: EditState)
    ensures s.open && s.editing == Some(note) && s.newFiles == []
  {
    EditState(true, Some(note), [])
  }

  /** An edit is saved when a note is being edited and its text has something besides white space, an
      image is still kept, or a file was newly attached. */
  predicate CanSaveEdit(s: EditState)
  {
    s.editing.Some? && (Trim(s.editing.value.content) != "" || |s.editing.value.imageUrls| > 0 || |s.newFiles| > 0)
  }

  /** The call the save button makes: the note's id, its text, and the newly attached files in the
      place of the new image list. The images still kept are passed in a further argument that the store
      does not take. */
  datatype EditCall = CallEditNote(noteId: Id, content: string, newImageUrls: seq<FileRef>)

  function SaveEdit(s: EditState): (r: (Option<EditCall>, EditState))
    ensures r.0.Some? <==> CanSaveEdit(s)
    ensures r.0.Some? ==> r.0.value == CallEditNote(s.editing.value.id, s.editing.value.content, s.newFiles)
                          && !r.1.open && r.1.editing.None?
    ensures r.0.None? ==> r.1 == s
  {
    if CanSaveEdit(s) then (Some(CallEditNote(s.editing.value.id, s.editing.value.content, s.newFiles)), EditState(false, None, s.newFiles))
    else (None, s)
  }

  /** Saving an edit of a note with images but no newly attached file keeps none of them: the store
      receives an empty image list and stores it in place of the note's images. */
  lemma SaveWithoutNewFilesDropsImages(notes: seq<Note>, note: Note, now: Timestamp)
    requires |note.imageUrls| > 0
    ensures SaveEdit(OpenEditModal(note)).0 == Some(CallEditNote(note.id, note.content, []))
    ensures forall k :: 0 <= k < |notes| && notes[k].id == note.id ==>
      ApplyNoteEdit(notes, note.id, note.content, [], now)[k].imageUrls == []
  {
  }

  /** The save button as evidently intended: the same guard, but the images still kept come first in the
      new image list, followed by the newly attached files. */
  function SaveEditKeepingImages(s: EditState): (r: (Option<EditCall>, EditState))
    ensures r.0.Some? <==> CanSaveEdit(s)
    ensures r.0.None? ==> r.1 == s
    ensures r.0.Some? ==> !r.1.open && r.1.editing.None?
  {
    if CanSaveEdit(s) then
      (Some(CallEditNote(s.editing.value.id, s.editing.value.content, s.editing.value.imageUrls + s.newFiles)), EditState(false, None, s.newFiles))
    else (None, s)
  }

  /** With the corrected save, the edited note keeps its images, in order, and gains the new files after
      them; an edit without new files leaves its images as they were. */
  lemma KeptImagesSurviveEdit(notes: seq<Note>, s: EditState, now: Timestamp)
    requires CanSaveEdit(s)
    ensures var call := SaveEditKeepingImages(s).0.value;
      && call.noteId == s.editing.value.id
      && forall k :: 0 <= k < |notes| && notes[k].id == call.noteId ==>
        && ApplyNoteEdit(notes, call.noteId, call.content, call.newImageUrls, now)[k].imageUrls
           == s.editing.value.imageUrls + s.newFiles
        && (s.newFiles == [] ==> ApplyNoteEdit(notes, call.noteId, call.content, call.newImageUrls, now)[k].imageUrls
                                 == s.editing.value.imageUrls)
  {
    assert s.editing.value.imageUrls + [] == s.editing.value.imageUrls;
  }
}
