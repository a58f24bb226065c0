/** The error log of one user: load, add, delete. */
module ErrorLogs {
  import opened Common
  import opened Strings
  import opened Seqs
  import opened Dates
  import opened Session

  datatype ErrorLogEntry = ErrorLogEntry(id: string, message: string, timestamp: Instant)

  /** A document of the `errorLog` collection. */
  datatype ErrorLogDoc = ErrorLogDoc(id: string, message: string, timestamp: Instant, userId: string)

  function EntryId(e: ErrorLogEntry): string
  {
    e.id
  }

  function ToEntry(d: ErrorLogDoc): ErrorLogEntry
  {
    ErrorLogEntry(d.id, d.message, d.timestamp)
  }

  function LoggedBy(uid: string): ErrorLogDoc -> bool
  {
    (d: ErrorLogDoc) => d.userId == uid
  }

  /** The result of the query on `userId == uid`. */
  function LoadedEntries(docs: seq<ErrorLogDoc>, uid: string): (r: seq<ErrorLogEntry>)
    ensures forall e :: e in r <==> exists d :: d in docs && d.userId == uid && e == ErrorLogEntry(d.id, d.message, d.timestamp)
  {
    Select(docs, LoggedBy(uid), ToEntry)
  }

  /** A stored entry is among the entries the next load for its user returns. */
  lemma StoredEntryIsLoaded(docs: seq<ErrorLogDoc>, d: ErrorLogDoc)
    ensures ErrorLogEntry(d.id, d.message, d.timestamp) in LoadedEntries(docs + [d], d.userId)
  {
    assert d in docs + [d];
  }

  class ErrorLog {
    var errors: seq<ErrorLogEntry>
    var newError: string

    constructor ()
      ensures errors == [] && newError == ""
    {
      errors, newError := [], "";
    }

    method FetchErrors(user: Option<User>, snapshot: Option<seq<ErrorLogDoc>>)
      modifies this`errors
      ensures errors == if user.Some? && snapshot.Some? then LoadedEntries(snapshot.value, user.value.uid)
                        else old(errors)
    {
      if user.Some? && snapshot.Some? {
        errors := LoadedEntries(snapshot.value, user.value.uid);
      }
    }

    /** `addError`; `storedAt` and `shownAt` are its two `new Date()` calls. */
    method AddError(user: Option<User>, storedAt: Instant, shownAt: Instant, reply: WriteResult)
      returns (stored: Option<ErrorLogDoc>)
      modifies this`errors, this`newError
      ensures !(HasText(old(newError)) && user.Some? && reply.Written?) ==> unchanged(this) && stored.None?
      ensures HasText(old(newError)) && user.Some? && reply.Written? ==>
                && stored == Some(ErrorLogDoc(reply.id, old(newError), storedAt, user.value.uid))
                && errors == old(errors) + [ErrorLogEntry(reply.id, old(newError), shownAt)]
                && newError == ""
      ensures UniqueKeys(old(errors), EntryId) && (reply.Written? ==> !HasKey(old(errors), EntryId, reply.id)) ==>
                UniqueKeys(errors, EntryId)
    {
      stored := None;
      if HasText(newError) && user.Some? {
        if reply.WriteFailed? {
          return;
        }
        if UniqueKeys(errors, EntryId) && !HasKey(errors, EntryId, reply.id) {
          AppendFreshKeepsUnique(errors, EntryId, ErrorLogEntry(reply.id, newError, shownAt));
        }
        stored := Some(ErrorLogDoc(reply.id, newError, storedAt, user.value.uid));
        errors := errors + [ErrorLogEntry(reply.id, newError, shownAt)];
        newError := "";
      }
    }

    method DeleteError(id: string, deleted: bool)
      modifies this`errors
      ensures errors == if deleted then RemoveByKey(old(errors), EntryId, id) else old(errors)
      ensures UniqueKeys(old(errors), EntryId) ==> UniqueKeys(errors, EntryId)
    {
      if deleted {
        if UniqueKeys(errors, EntryId) {
          RemoveKeepsUnique(errors, EntryId, id);
        }
        errors := RemoveByKey(errors, EntryId, id);
      }
    }
  }
}
