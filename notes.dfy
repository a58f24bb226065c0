/** Project notes: load for one user and project, add, delete, and edit in place. */
module ProjectNotes {
  import opened Common
  import opened Strings
  import opened Seqs
  import opened Dates
  import opened Session

  datatype Note = Note(id: string, content: string, timestamp: Instant)

  /** A document of the `notes` collection. */
  datatype NoteDoc = NoteDoc(id: string, content: string, timestamp: Instant, userId: string, projectId: string)

  function NoteId(n: Note): string
  {
    n.id
  }

  function ToNote(d: NoteDoc): Note
  {
    Note(d.id, d.content, d.timestamp)
  }

  function InProjectOf(uid: string, projectId: string): NoteDoc -> bool
  {
    (d: NoteDoc) => d.userId == uid && d.projectId == projectId
  }

  /** The result of the query on `userId == uid` and `projectId == projectId`. */
  function LoadedNotes(docs: seq<NoteDoc>, uid: string, projectId: string): (r: seq<Note>)
    ensures forall n :: n in r <==> exists d :: d in docs && d.userId == uid && d.projectId == projectId &&
                                                 n == Note(d.id, d.content, d.timestamp)
  {
    Select(docs, InProjectOf(uid, projectId), ToNote)
  }

  /** A stored note is among the notes the next load for its user and project returns, with the
      timestamp of the stored document. */
  lemma StoredNoteIsLoaded(docs: seq<NoteDoc>, d: NoteDoc)
    ensures Note(d.id, d.content, d.timestamp) in LoadedNotes(docs + [d], d.userId, d.projectId)
  {
    assert d in docs + [d];
  }

  /** A load for another project returns none of the notes stored for this one. */
  lemma NotesStayInTheirProject(docs: seq<NoteDoc>, uid: string, projectId: string, d: NoteDoc)
    requires d.projectId != projectId
    requires forall x :: x in docs && x.id == d.id ==> x == d
    ensures Note(d.id, d.content, d.timestamp) !in LoadedNotes(docs, uid, projectId)
  {
  }

  /** `notes.map(note => note.id === id ? { ...note, content } : note)`. */
  function UpdateContent(notes: seq<Note>, id: string, content: string): (r: seq<Note>)
    ensures |r| == |notes|
    ensures forall i :: 0 <= i < |r| ==> r[i].id == notes[i].id && r[i].timestamp == notes[i].timestamp
    ensures forall i :: 0 <= i < |r| ==> r[i].content == if notes[i].id == id then content else notes[i].content
  {
    if |notes| == 0 then []
    else
      var n := notes[0];
      [if n.id == id then n.(content := content) else n] + UpdateContent(notes[1..], id, content)
  }

  /** Editing the same note twice keeps only the last content. */
  lemma UpdateLastWins(notes: seq<Note>, id: string, c1: string, c2: string)
    ensures UpdateContent(UpdateContent(notes, id, c1), id, c2) == UpdateContent(notes, id, c2)
  {
  }

  /** Editing an id that no note has changes nothing. */
  lemma UpdateAbsent(notes: seq<Note>, id: string, content: string)
    requires !HasKey(notes, NoteId, id)
    ensures UpdateContent(notes, id, content) == notes
  {
  }

  /** Editing keeps the ids, so the ids stay unique. */
  lemma UpdateKeepsUnique(notes: seq<Note>, id: string, content: string)
    requires UniqueKeys(notes, NoteId)
    ensures UniqueKeys(UpdateContent(notes, id, content), NoteId)
  {
  }

  class Notes {
    var notes: seq<Note>
    var newNote: string

    constructor ()
      ensures notes == [] && newNote == ""
    {
      notes, newNote := [], "";
    }

    /** The load effect: runs only with a user and a project id. */
    method FetchNotes(user: Option<User>, projectId: Option<string>, snapshot: Option<seq<NoteDoc>>)
      modifies this`notes
      ensures notes == if user.Some? && Present(projectId) && snapshot.Some?
                       then LoadedNotes(snapshot.value, user.value.uid, projectId.value)
                       else old(notes)
    {
      if user.Some? && Present(projectId) && snapshot.Some? {
        notes := LoadedNotes(snapshot.value, user.value.uid, projectId.value);
      }
    }

    /** `addNote`. The stored document and the local note each take their own `new Date()`:
        `storedAt` and `shownAt`. */
    method AddNote(user: Option<User>, projectId: Option<string>, storedAt: Instant, shownAt: Instant,
                   reply: WriteResult) returns (stored: Option<NoteDoc>)
      modifies this`notes, this`newNote
      ensures !(HasText(old(newNote)) && user.Some? && Present(projectId) && reply.Written?) ==>
                unchanged(this) && stored.None?
      ensures HasText(old(newNote)) && user.Some? && Present(projectId) && reply.Written? ==>
                && stored == Some(NoteDoc(reply.id, old(newNote), storedAt, user.value.uid, projectId.value))
                && notes == old(notes) + [Note(reply.id, old(newNote), shownAt)]
                && newNote == ""
      ensures UniqueKeys(old(notes), NoteId) && (reply.Written? ==> !HasKey(old(notes), NoteId, reply.id)) ==>
                UniqueKeys(notes, NoteId)
    {
      stored := None;
      if HasText(newNote) && user.Some? && Present(projectId) {
        if reply.WriteFailed? {
          return;
        }
        if UniqueKeys(notes, NoteId) && !HasKey(notes, NoteId, reply.id) {
          AppendFreshKeepsUnique(notes, NoteId, Note(reply.id, newNote, shownAt));
        }
        stored := Some(NoteDoc(reply.id, newNote, storedAt, user.value.uid, projectId.value));
        notes := notes + [Note(reply.id, newNote, shownAt)];
        newNote := "";
      }
    }

    /** `deleteNote`: `deleted` says whether the backend accepted the delete. */
    method DeleteNote(id: string, deleted: bool)
      modifies this`notes
      ensures notes == if deleted then RemoveByKey(old(notes), NoteId, id) else old(notes)
      ensures UniqueKeys(old(notes), NoteId) ==> UniqueKeys(notes, NoteId)
    {
      if deleted {
        if UniqueKeys(notes, NoteId) {
          RemoveKeepsUnique(notes, NoteId, id);
        }
        notes := RemoveByKey(notes, NoteId, id);
      }
    }

    /** `updateNote`: `updated` says whether the backend accepted the update. */
    method UpdateNote(id: string, content: string, updated: bool)
      modifies this`notes
      ensures notes == if updated then UpdateContent(old(notes), id, content) else old(notes)
      ensures UniqueKeys(old(notes), NoteId) ==> UniqueKeys(notes, NoteId)
    {
      if updated {
        if UniqueKeys(notes, NoteId) {
          UpdateKeepsUnique(notes, id, content);
        }
        notes := UpdateContent(notes, id, content);
      }
    }
  }
}
