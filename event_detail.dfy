/** The event detail page: the event, its notes, adding a note and closing (resolving) the event. */
module EventDetail {
  import opened Base
  import opened Domain
  import opened Text

  const AlreadyResolvedAlert := "This event is already resolved and cannot be modified."
  const NoteRequiredAlert := "Please add a short resolution note before closing the event."

  /** The resolution text the form starts from: the note, else the resolution, else empty
      (`??` falls through only on a missing value, so an empty note is kept). */
  function InitialResolutionNote(ev: Event): (r: string)
    ensures ev.resolutionNote.Some? ==> r == ev.resolutionNote.value
    ensures ev.resolutionNote.None? && ev.resolution.Some? ==> r == ev.resolution.value
    ensures ev.resolutionNote.None? && ev.resolution.None? ==> r == ""
  {
    ev.resolutionNote.GetOr(ev.resolution.GetOr(""))
  }

  predicate IsResolved(ev: Event) {
    ev.status == Resolved
  }

  /** The close button is enabled only for an unresolved event the viewer may resolve, when no save
      is in flight. */
  predicate CloseEnabled(ev: Event, saving: bool) {
    ev.canChangeResolution && !IsResolved(ev) && !saving
  }

  /** The note shown for a resolved event: its note when that has a non-space character. */
  function ResolutionText(ev: Event): (r: string)
    ensures ev.resolutionNote.Some? && !IsBlank(ev.resolutionNote.value) ==> r == ev.resolutionNote.value
    ensures ev.resolutionNote.None? || IsBlank(ev.resolutionNote.value) ==> r == "No resolution note."
  {
    if ev.resolutionNote.Some? && !IsBlank(ev.resolutionNote.value) then ev.resolutionNote.value
    else "No resolution note."
  }

  /** Why closing is refused, if it is: a resolved event is locked, and a blank note is no note. */
  function CloseRejection(ev: Event, note: string): Option<string> {
    if IsResolved(ev) then Some(AlreadyResolvedAlert)
    else if IsBlank(note) then Some(NoteRequiredAlert)
    else None
  }

  /** Closing goes ahead exactly for an open event whose note has a character other than white
      space; a resolved event is refused as locked before the note is looked at. */
  lemma CloseRejectionSpec(ev: Event, note: string)
    ensures CloseRejection(ev, note).None? <==> ev.status == Open && exists i :: 0 <= i < |note| && !IsSpace(note[i])
    ensures IsResolved(ev) ==> CloseRejection(ev, note) == Some(AlreadyResolvedAlert)
    ensures !IsResolved(ev) && CloseRejection(ev, note).Some? ==> CloseRejection(ev, note) == Some(NoteRequiredAlert)
  {
    BlankIffAllSpace(note);
  }

  /** Whether the page shows the note form: the page has an id, the event is loaded (not loading,
      not failed), and that event is not resolved. */
  predicate NoteFormShown(eventId: Option<string>, loading: LoadingState, ev: Option<Event>) {
    eventId.Some? && eventId.value != "" && loading == Idle && ev.Some? && !IsResolved(ev.value)
  }

  /** On a rendered event the note form and the lock agree: the form is shown exactly when closing
      would not refuse the event as already resolved, and a resolved event hides it. */
  lemma NoteFormUnlessLocked(eventId: Option<string>, loading: LoadingState, ev: Option<Event>, note: string)
    requires eventId.Some? && eventId.value != "" && loading == Idle && ev.Some?
    ensures NoteFormShown(eventId, loading, ev) <==> CloseRejection(ev.value, note) != Some(AlreadyResolvedAlert)
    ensures ev.value.status == Resolved ==> !NoteFormShown(eventId, loading, ev)
  {
  }

  /** An enabled close button with a non-blank note always reaches the server. */
  lemma EnabledCloseIsSent(ev: Event, saving: bool, note: string)
    requires CloseEnabled(ev, saving) && !IsBlank(note)
    ensures CloseRejection(ev, note).None?
  {
    BlankIffAllSpace(note);
  }

  /** The body a new note is sent with: the trimmed input, or nothing when that is empty. */
  function NoteBody(input: string): Option<string> {
    var body := Trim(input);
    if body == [] then None else Some(body)
  }

  /** A note is sent exactly when the input has a character other than white space, and what is
      sent is a piece of the input with no white space at either end. */
  lemma NoteBodySpec(input: string)
    ensures NoteBody(input).None? <==> forall i :: 0 <= i < |input| ==> IsSpace(input[i])
    ensures NoteBody(input).Some? ==>
              var b := NoteBody(input).value;
              b != [] && !IsSpace(b[0]) && !IsSpace(b[|b| - 1]) && exists k :: OccursAt(input, b, k)
  {
    BlankIffAllSpace(input);
  }

  /** `PATCH /events/:id/status`: the status and the resolution text, sent as typed. */
  datatype StatusPatch = StatusPatch(eventId: string, status: Status, resolution: string)

  /** `POST /events/:id/notes`. */
  datatype NoteRequest = NoteRequest(eventId: string, body: string, kind: string)

  /** The state of the event detail page. */
  class EventDetailPage {
    var event: Option<Event>
    var eventLoading: LoadingState
    var eventError: Option<string>
    var notes: seq<Note>
    var notesLoading: LoadingState
    var notesError: Option<string>
    var newNoteBody: string
    var resolutionNote: string
    var savingResolution: bool
    var addingNote: bool

    /** As first rendered: both loads pending, empty inputs. */
    constructor ()
      ensures event.None? && eventLoading == Loading && eventError.None?
      ensures notes == [] && notesLoading == Loading && notesError.None?
      ensures newNoteBody == "" && resolutionNote == "" && !savingResolution && !addingNote
    {
      event, eventLoading, eventError := None, Loading, None;
      notes, notesLoading, notesError := [], Loading, None;
      newNoteBody, resolutionNote, savingResolution, addingNote := "", "", false, false;
    }

    /** Loading the event also seeds the resolution form from it. */
    method LoadEvent(eventId: Option<string>, result: Outcome<Event>)
      modifies this
      ensures eventId.None? || eventId.value == "" ==>
                event == old(event) && eventLoading == old(eventLoading) && eventError == old(eventError)
                && resolutionNote == old(resolutionNote)
      ensures eventId.Some? && eventId.value != "" && result.Ok? ==>
                event == Some(result.value) && resolutionNote == InitialResolutionNote(result.value)
                && eventLoading == Idle && eventError.None?
      ensures eventId.Some? && eventId.value != "" && result.Ok? ==>
                (NoteFormShown(eventId, eventLoading, event) <==> !IsResolved(result.value))
      ensures eventId.Some? && eventId.value != "" && result.Err? ==>
                event == old(event) && resolutionNote == old(resolutionNote)
                && eventLoading == Error && eventError == Some(result.message)
      ensures notes == old(notes) && notesLoading == old(notesLoading) && notesError == old(notesError)
      ensures newNoteBody == old(newNoteBody) && savingResolution == old(savingResolution) && addingNote == old(addingNote)
    {
      if eventId.None? || eventId.value == "" {
        return;
      }
      eventLoading, eventError := Loading, None;
      match result
      case Ok(ev) =>
        event := Some(ev);
        resolutionNote := InitialResolutionNote(ev);
        eventLoading := Idle;
      case Err(m) =>
        eventError, eventLoading := Some(m), Error;
    }

    /** Loading the notes replaces the list as fetched; a failure keeps it. */
    method LoadNotes(eventId: Option<string>, result: Outcome<seq<Note>>)
      modifies this
      ensures eventId.None? || eventId.value == "" ==>
                notes == old(notes) && notesLoading == old(notesLoading) && notesError == old(notesError)
      ensures eventId.Some? && eventId.value != "" && result.Ok? ==>
                notes == result.value && notesLoading == Idle && notesError.None?
      ensures eventId.Some? && eventId.value != "" && result.Err? ==>
                notes == old(notes) && notesLoading == Error && notesError == Some(result.message)
      ensures event == old(event) && eventLoading == old(eventLoading) && eventError == old(eventError)
      ensures newNoteBody == old(newNoteBody) && resolutionNote == old(resolutionNote)
      ensures savingResolution == old(savingResolution) && addingNote == old(addingNote)
    {
      if eventId.None? || eventId.value == "" {
        return;
      }
      notesLoading, notesError := Loading, None;
      match result
      case Ok(list) =>
        notes, notesLoading := list, Idle;
      case Err(m) =>
        notesError, notesLoading := Some(m), Error;
    }

    /** `handleCloseEvent`: without an id or a loaded event nothing happens; a refused close alerts
        and sends nothing; otherwise the untrimmed note is sent with status "resolved", and the
        server's event replaces the shown one (a failure alerts and keeps it). */
    method HandleCloseEvent(eventId: Option<string>, patched: Outcome<Event>)
      returns (alert: Option<string>, request: Option<StatusPatch>)
      modifies this
      ensures (eventId.None? || eventId.value == "" || old(event).None?) ==>
                alert.None? && request.None? && event == old(event)
                && resolutionNote == old(resolutionNote) && savingResolution == old(savingResolution)
      ensures eventId.Some? && eventId.value != "" && old(event).Some?
              && CloseRejection(old(event).value, old(resolutionNote)).Some? ==>
                alert == CloseRejection(old(event).value, old(resolutionNote)) && request.None?
                && event == old(event) && resolutionNote == old(resolutionNote)
                && savingResolution == old(savingResolution)
      ensures eventId.Some? && eventId.value != "" && old(event).Some?
              && CloseRejection(old(event).value, old(resolutionNote)).None? ==>
                request == Some(StatusPatch(eventId.value, Resolved, old(resolutionNote)))
                && !savingResolution
                && (patched.Ok? ==> alert.None? && event == Some(patched.value)
                                    && resolutionNote == InitialResolutionNote(patched.value))
                && (patched.Err? ==> alert == Some(patched.message) && event == old(event)
                                     && resolutionNote == old(resolutionNote))
      ensures request.Some? && patched.Ok? && IsResolved(patched.value) ==> !NoteFormShown(eventId, eventLoading, event)
      ensures notes == old(notes) && notesLoading == old(notesLoading) && notesError == old(notesError)
      ensures eventLoading == old(eventLoading) && eventError == old(eventError)
      ensures newNoteBody == old(newNoteBody) && addingNote == old(addingNote)
    {
      alert, request := None, None;
      if eventId.None? || eventId.value == "" || event.None? {
        return;
      }
      var rejection := CloseRejection(event.value, resolutionNote);
      if rejection.Some? {
        alert := rejection;
        return;
      }
      alert, request := SendResolution(eventId.value, patched);
    }

    /** The accepted close: the typed note goes out with status "resolved"; the server's event and
        its note replace the shown ones, or a failure is alerted and nothing else changes. */
    method SendResolution(eventId: string, patched: Outcome<Event>)
      returns (alert: Option<string>, request: Option<StatusPatch>)
      modifies this
      ensures request == Some(StatusPatch(eventId, Resolved, old(resolutionNote))) && !savingResolution
      ensures patched.Ok? ==> alert.None? && event == Some(patched.value)
                              && resolutionNote == InitialResolutionNote(patched.value)
      ensures patched.Err? ==> alert == Some(patched.message) && event == old(event)
                               && resolutionNote == old(resolutionNote)
      ensures notes == old(notes) && notesLoading == old(notesLoading) && notesError == old(notesError)
      ensures eventLoading == old(eventLoading) && eventError == old(eventError)
      ensures newNoteBody == old(newNoteBody) && addingNote == old(addingNote)
    {
      savingResolution := true;
      request := Some(StatusPatch(eventId, Resolved, resolutionNote));
      alert := None;
      match patched {
        case Ok(updated) =>
          event := Some(updated);
          resolutionNote := InitialResolutionNote(updated);
        case Err(m) =>
          alert := Some(m);
      }
      savingResolution := false;
    }

    /** `handleAddNote`: a note of only white space is silently dropped; otherwise the trimmed body
        is sent as a "comment", and on success it is appended and the input cleared. */
    method HandleAddNote(eventId: Option<string>, created: Outcome<Note>)
      returns (alert: Option<string>, request: Option<NoteRequest>)
      modifies this
      ensures (eventId.None? || eventId.value == "" || NoteBody(old(newNoteBody)).None?) ==>
                alert.None? && request.None? && notes == old(notes)
                && newNoteBody == old(newNoteBody) && addingNote == old(addingNote)
      ensures eventId.Some? && eventId.value != "" && NoteBody(old(newNoteBody)).Some? ==>
                request == Some(NoteRequest(eventId.value, NoteBody(old(newNoteBody)).value, "comment"))
                && !addingNote
                && (created.Ok? ==> alert.None? && notes == old(notes) + [created.value] && newNoteBody == "")
                && (created.Err? ==> alert == Some(created.message) && notes == old(notes)
                                     && newNoteBody == old(newNoteBody))
      ensures event == old(event) && eventLoading == old(eventLoading) && eventError == old(eventError)
      ensures notesLoading == old(notesLoading) && notesError == old(notesError)
      ensures resolutionNote == old(resolutionNote) && savingResolution == old(savingResolution)
    {
      alert, request := None, None;
      if eventId.None? || eventId.value == "" {
        return;
      }
      var body := NoteBody(newNoteBody);
      if body.None? {
        return;
      }
      alert, request := SendNote(eventId.value, body.value, created);
    }

    /** The accepted note: it goes out as a "comment"; the created note is appended and the input
        cleared, or a failure is alerted and nothing else changes. */
    method SendNote(eventId: string, body: string, created: Outcome<Note>)
      returns (alert: Option<string>, request: Option<NoteRequest>)
      modifies this
      ensures request == Some(NoteRequest(eventId, body, "comment")) && !addingNote
      ensures created.Ok? ==> alert.None? && notes == old(notes) + [created.value] && newNoteBody == ""
      ensures created.Err? ==> alert == Some(created.message) && notes == old(notes) && newNoteBody == old(newNoteBody)
      ensures event == old(event) && eventLoading == old(eventLoading) && eventError == old(eventError)
      ensures notesLoading == old(notesLoading) && notesError == old(notesError)
      ensures resolutionNote == old(resolutionNote) && savingResolution == old(savingResolution)
    {
      addingNote := true;
      request := Some(NoteRequest(eventId, body, "comment"));
      alert := None;
      match created {
        case Ok(n) =>
          notes := notes + [n];
          newNoteBody := "";
        case Err(m) =>
          alert := Some(m);
      }
      addingNote := false;
    }
  }
}
