/** The guidelines log of one user: load, add, delete. */
module Guidelines {
  import opened Common
  import opened Strings
  import opened Seqs
  import opened Dates
  import opened Session

  datatype Guideline = Guideline(id: string, content: string, timestamp: Instant)

  /** A document of the `guidelines` collection. */
  datatype GuidelineDoc = GuidelineDoc(id: string, content: string, timestamp: Instant, userId: string)

  function GuidelineId(g: Guideline): string
  {
    g.id
  }

  function ToGuideline(d: GuidelineDoc): Guideline
  {
    Guideline(d.id, d.content, d.timestamp)
  }

  function WrittenBy(uid: string): GuidelineDoc -> bool
  {
    (d: GuidelineDoc) => d.userId == uid
  }

  /** The result of the query on `userId == uid`. */
  function LoadedGuidelines(docs: seq<GuidelineDoc>, uid: string): (r: seq<Guideline>)
    ensures forall g :: g in r <==> exists d :: d in docs && d.userId == uid && g == Guideline(d.id, d.content, d.timestamp)
  {
    Select(docs, WrittenBy(uid), ToGuideline)
  }

  /** A stored guideline is among the guidelines the next load for its user returns. */
  lemma StoredGuidelineIsLoaded(docs: seq<GuidelineDoc>, d: GuidelineDoc)
    ensures Guideline(d.id, d.content, d.timestamp) in LoadedGuidelines(docs + [d], d.userId)
  {
    assert d in docs + [d];
  }

  class GuidelinesLog {
    var guidelines: seq<Guideline>
    var newGuideline: string

    constructor ()
      ensures guidelines == [] && newGuideline == ""
    {
      guidelines, newGuideline := [], "";
    }

    method FetchGuidelines(user: Option<User>, snapshot: Option<seq<GuidelineDoc>>)
      modifies this`guidelines
      ensures guidelines == if user.Some? && snapshot.Some? then LoadedGuidelines(snapshot.value, user.value.uid)
                            else old(guidelines)
    {
      if user.Some? && snapshot.Some? {
        guidelines := LoadedGuidelines(snapshot.value, user.value.uid);
      }
    }

    /** `addGuideline`; `storedAt` and `shownAt` are its two `new Date()` calls. */
    method AddGuideline(user: Option<User>, storedAt: Instant, shownAt: Instant, reply: WriteResult)
      returns (stored: Option<GuidelineDoc>)
      modifies this`guidelines, this`newGuideline
      ensures !(HasText(old(newGuideline)) && user.Some? && reply.Written?) ==> unchanged(this) && stored.None?
      ensures HasText(old(newGuideline)) && user.Some? && reply.Written? ==>
                && stored == Some(GuidelineDoc(reply.id, old(newGuideline), storedAt, user.value.uid))
                && guidelines == old(guidelines) + [Guideline(reply.id, old(newGuideline), shownAt)]
                && newGuideline == ""
      ensures UniqueKeys(old(guidelines), GuidelineId) && (reply.Written? ==> !HasKey(old(guidelines), GuidelineId, reply.id)) ==>
                UniqueKeys(guidelines, GuidelineId)
    {
      stored := None;
      if HasText(newGuideline) && user.Some? {
        if reply.WriteFailed? {
          return;
        }
        if UniqueKeys(guidelines, GuidelineId) && !HasKey(guidelines, GuidelineId, reply.id) {
          AppendFreshKeepsUnique(guidelines, GuidelineId, Guideline(reply.id, newGuideline, shownAt));
        }
        stored := Some(GuidelineDoc(reply.id, newGuideline, storedAt, user.value.uid));
        guidelines := guidelines + [Guideline(reply.id, newGuideline, shownAt)];
        newGuideline := "";
      }
    }

    method DeleteGuideline(id: string, deleted: bool)
      modifies this`guidelines
      ensures guidelines == if deleted then RemoveByKey(old(guidelines), GuidelineId, id) else old(guidelines)
      ensures UniqueKeys(old(guidelines), GuidelineId) ==> UniqueKeys(guidelines, GuidelineId)
    {
      if deleted {
        if UniqueKeys(guidelines, GuidelineId) {
          RemoveKeepsUnique(guidelines, GuidelineId, id);
        }
        guidelines := RemoveByKey(guidelines, GuidelineId, id);
      }
    }
  }
}
