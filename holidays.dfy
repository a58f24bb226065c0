/** The holiday list of one user: manual entry with duplicate suppression, the batch import of
    public holidays, deletion, the date order used for display, and the calendar-day lookup that
    the task screens use to refuse a holiday date. */
module Holidays {
  import opened Common
  import opened Strings
  import opened Seqs
  import opened Dates
  import opened Session

  datatype Holiday = Holiday(id: string, name: string, date: Instant)

  /** A document of the `holidays` collection. */
  datatype HolidayDoc = HolidayDoc(id: string, name: string, date: Instant, userId: string)

  /** One entry of the public-holiday feed: a name and a date, no id yet. */
  datatype FederalHoliday = FederalHoliday(name: string, date: Instant)

  const DuplicateAlert: string := "A holiday with this name and date already exists."

  function HolidayId(h: Holiday): string
  {
    h.id
  }

  function ToDoc(h: Holiday, uid: string): HolidayDoc
  {
    HolidayDoc(h.id, h.name, h.date, uid)
  }

  function ToDocs(hs: seq<Holiday>, uid: string): seq<HolidayDoc>
  {
    seq(|hs|, j requires 0 <= j < |hs| => ToDoc(hs[j], uid))
  }

  function ToHoliday(d: HolidayDoc): Holiday
  {
    Holiday(d.id, d.name, d.date)
  }

  // ---------------------------------------------------------------- lookups

  function OnDay(t: Instant): Holiday -> bool
  {
    (h: Holiday) => SameDay(h.date, t)
  }

  /** `holidays.find(h => h.date.toDateString() === t.toDateString())`: the first holiday, in list
      order, on the calendar day of `t`; none exactly when no holiday falls on that day. */
  function FindOnDay(hs: seq<Holiday>, t: Instant): (r: Option<Holiday>)
    ensures r.None? <==> forall j :: 0 <= j < |hs| ==> !SameDay(hs[j].date, t)
    ensures r.Some? ==> exists i :: 0 <= i < |hs| && hs[i] == r.value && SameDay(hs[i].date, t) &&
                                    forall j :: 0 <= j < i ==> !SameDay(hs[j].date, t)
  {
    Find(hs, OnDay(t))
  }

  function SameNameAndDay(name: string, t: Instant): Holiday -> bool
  {
    (h: Holiday) => h.name == name && SameDay(h.date, t)
  }

  /** The duplicate test: a holiday with exactly this name on the calendar day of `t`. */
  function FindDuplicate(hs: seq<Holiday>, name: string, t: Instant): (r: Option<Holiday>)
    ensures r.None? <==> forall j :: 0 <= j < |hs| ==> !(hs[j].name == name && SameDay(hs[j].date, t))
    ensures r.Some? ==> r.value in hs && r.value.name == name && SameDay(r.value.date, t)
  {
    Find(hs, SameNameAndDay(name, t))
  }

  // ---------------------------------------------------------------- loading

  function OwnedBy(uid: string): HolidayDoc -> bool
  {
    (d: HolidayDoc) => d.userId == uid
  }

  /** The result of the query `where('userId', '==', uid)`, as the screen keeps it. */
  function UserHolidays(docs: seq<HolidayDoc>, uid: string): (r: seq<Holiday>)
    ensures forall h :: h in r <==> exists d :: d in docs && d.userId == uid && h == Holiday(d.id, d.name, d.date)
  {
    Select(docs, OwnedBy(uid), ToHoliday)
  }

  /** A holiday stored for a user is among the holidays a later load for that user returns. */
  lemma StoredHolidayIsLoaded(docs: seq<HolidayDoc>, h: Holiday, uid: string)
    ensures h in UserHolidays(docs + [ToDoc(h, uid)], uid)
  {
    var d := ToDoc(h, uid);
    assert d in docs + [d];
  }

  // ---------------------------------------------------------------- batch import

  function IsNewTo(existing: seq<Holiday>): FederalHoliday -> bool
  {
    (f: FederalHoliday) => FindDuplicate(existing, f.name, f.date).None?
  }

  /** The fetched entries the import writes, in input order: those with no same-name, same-day
      match in the list as it was when the import started. */
  function Candidates(existing: seq<Holiday>, fetched: seq<FederalHoliday>): (c: seq<FederalHoliday>)
    ensures |c| <= |fetched|
  {
    Filter(fetched, IsNewTo(existing))
  }

  /** An entry of the feed is written exactly when no old holiday has its name and its calendar day. */
  lemma CandidatesIff(existing: seq<Holiday>, fetched: seq<FederalHoliday>, f: FederalHoliday)
    ensures f in Candidates(existing, fetched) <==>
            f in fetched && forall h :: h in existing ==> !(h.name == f.name && SameDay(h.date, f.date))
  {
    var r := FindDuplicate(existing, f.name, f.date);
    if r.Some? {
      assert r.value in existing && r.value.name == f.name && SameDay(r.value.date, f.date);
    }
  }

  /** How many of `n` consecutive writes succeed before the first rejected one; a write for which
      the backend has no reply left counts as rejected. */
  function CompletedWrites(replies: seq<WriteResult>, n: nat): (k: nat)
    ensures k <= n && k <= |replies|
    ensures forall j :: 0 <= j < k ==> replies[j].Written?
    ensures k < n ==> k == |replies| || replies[k].WriteFailed?
  {
    var i := FirstIndex(replies, IsFailed);
    if i < n then i else n
  }

  /** The holidays created from the candidates with the ids the backend assigned, in order. */
  function Stamp(cands: seq<FederalHoliday>, replies: seq<WriteResult>): seq<Holiday>
    requires |cands| <= |replies|
    requires forall j :: 0 <= j < |cands| ==> replies[j].Written?
  {
    seq(|cands|, j requires 0 <= j < |cands| => Holiday(replies[j].id, cands[j].name, cands[j].date))
  }

  lemma StampSnoc(cands: seq<FederalHoliday>, f: FederalHoliday, replies: seq<WriteResult>, k: nat)
    requires k == |cands| && k < |replies|
    requires forall j :: 0 <= j <= k ==> replies[j].Written?
    ensures Stamp(cands + [f], replies[..k + 1]) == Stamp(cands, replies[..k]) + [Holiday(replies[k].id, f.name, f.date)]
  {
  }

  /** The candidates of a prefix of the feed are a prefix of the candidates of the whole feed,
      and when the next entry is itself a candidate, the whole feed has one more. */
  lemma CandidatesOfPrefix(existing: seq<Holiday>, fetched: seq<FederalHoliday>, i: nat)
    requires i < |fetched|
    requires FindDuplicate(existing, fetched[i].name, fetched[i].date).None?
    ensures var c, all := Candidates(existing, fetched[..i]), Candidates(existing, fetched);
            |c| < |all| && all[..|c|] == c
  {
    var p := IsNewTo(existing);
    assert fetched == fetched[..i] + ([fetched[i]] + fetched[i + 1..]);
    FilterAppend(fetched[..i], [fetched[i]] + fetched[i + 1..], p);
    FilterAppend([fetched[i]], fetched[i + 1..], p);
    assert Filter([fetched[i]], p) == [fetched[i]];
  }

  /** A write rejected while handling candidate `fetched[i]` (the `k`-th candidate) stops the import
      after exactly `k` successful writes. */
  lemma ImportStops(existing: seq<Holiday>, fetched: seq<FederalHoliday>, replies: seq<WriteResult>, i: nat, k: nat)
    requires i < |fetched|
    requires FindDuplicate(existing, fetched[i].name, fetched[i].date).None?
    requires k == |Candidates(existing, fetched[..i])|
    requires k <= |replies| && forall j :: 0 <= j < k ==> replies[j].Written?
    requires k == |replies| || replies[k].WriteFailed?
    ensures var all := Candidates(existing, fetched);
            k < |all| && all[..k] == Candidates(existing, fetched[..i]) &&
            CompletedWrites(replies, |all|) == k
  {
    CandidatesOfPrefix(existing, fetched, i);
    var all := Candidates(existing, fetched);
  }

  /** A complete import adds only holidays with no same-name, same-day match among the old ones. */
  lemma ImportedAreNew(existing: seq<Holiday>, fetched: seq<FederalHoliday>, replies: seq<WriteResult>)
    requires var c := Candidates(existing, fetched); CompletedWrites(replies, |c|) == |c|
    ensures var added := Stamp(Candidates(existing, fetched), replies[..|Candidates(existing, fetched)|]);
            forall j, h :: 0 <= j < |added| && h in existing ==> !(h.name == added[j].name && SameDay(h.date, added[j].date))
  {
    var c := Candidates(existing, fetched);
    forall j | 0 <= j < |c|
      ensures forall h :: h in existing ==> !(h.name == c[j].name && SameDay(h.date, c[j].date))
    {
      CandidatesIff(existing, fetched, c[j]);
    }
  }

  /** The duplicate test looks only at the old list: an entry that appears twice in one feed and
      not among the old holidays is written twice. */
  lemma {:induction false} InBatchDuplicatesKept(existing: seq<Holiday>, f: FederalHoliday)
    requires FindDuplicate(existing, f.name, f.date).None?
    ensures Candidates(existing, [f, f]) == [f, f]
  {
    var p := IsNewTo(existing);
    assert [f, f] == [f] + [f];
    FilterAppend([f], [f], p);
    assert Filter([f], p) == [f];
  }

  /** One step of the import loop over an entry that is new: it becomes the next candidate. */
  lemma CandidatesStepNew(existing: seq<Holiday>, fetched: seq<FederalHoliday>, i: nat)
    requires i < |fetched|
    requires FindDuplicate(existing, fetched[i].name, fetched[i].date).None?
    ensures Candidates(existing, fetched[..i + 1]) == Candidates(existing, fetched[..i]) + [fetched[i]]
  {
    var p := IsNewTo(existing);
    TakeSnoc(fetched, i);
    FilterAppend(fetched[..i], [fetched[i]], p);
    assert Filter([fetched[i]], p) == [fetched[i]];
  }

  /** One step of the import loop over a duplicate: the candidates stay as they were. */
  lemma CandidatesStepDuplicate(existing: seq<Holiday>, fetched: seq<FederalHoliday>, i: nat)
    requires i < |fetched|
    requires FindDuplicate(existing, fetched[i].name, fetched[i].date).Some?
    ensures Candidates(existing, fetched[..i + 1]) == Candidates(existing, fetched[..i])
  {
    var p := IsNewTo(existing);
    TakeSnoc(fetched, i);
    FilterAppend(fetched[..i], [fetched[i]], p);
    assert Filter([fetched[i]], p) == [];
  }

  /** When every candidate's write succeeded, the import is complete. */
  lemma ImportCompletes(existing: seq<Holiday>, fetched: seq<FederalHoliday>, replies: seq<WriteResult>, k: nat)
    requires k == |Candidates(existing, fetched)|
    requires k <= |replies| && forall j :: 0 <= j < k ==> replies[j].Written?
    ensures CompletedWrites(replies, k) == k
  {
  }

  /** The loop of `addFederalHolidays`: every fetched entry that is new to `existing` is written,
      in input order, taking the next reply; the first rejected write ends the loop. Returns the
      holidays pushed into `newHolidays` and whether the loop ran to the end. */
  method WriteNewHolidays(existing: seq<Holiday>, fetched: seq<FederalHoliday>, replies: seq<WriteResult>)
    returns (newHolidays: seq<Holiday>, complete: bool)
    ensures var cands := Candidates(existing, fetched);
            var n := CompletedWrites(replies, |cands|);
            newHolidays == Stamp(cands[..n], replies[..n]) && complete == (n == |cands|)
  {
    newHolidays := [];
    var k := 0;
    for i := 0 to |fetched|
      invariant k == |Candidates(existing, fetched[..i])|
      invariant k <= |replies| && forall j :: 0 <= j < k ==> replies[j].Written?
      invariant newHolidays == Stamp(Candidates(existing, fetched[..i]), replies[..k])
    {
      var f := fetched[i];
      if FindDuplicate(existing, f.name, f.date).None? {
        var reply := if k < |replies| then replies[k] else WriteFailed;
        if reply.WriteFailed? {
          ImportStops(existing, fetched, replies, i, k);
          return newHolidays, false;
        }
        CandidatesStepNew(existing, fetched, i);
        StampSnoc(Candidates(existing, fetched[..i]), f, replies, k);
        newHolidays := newHolidays + [Holiday(reply.id, f.name, f.date)];
        k := k + 1;
      } else {
        CandidatesStepDuplicate(existing, fetched, i);
      }
    }
    assert fetched[..|fetched|] == fetched;
    ImportCompletes(existing, fetched, replies, k);
    complete := true;
  }

  // ---------------------------------------------------------------- display order

  predicate SortedByDate(s: seq<Holiday>)
  {
    forall i, j :: 0 <= i < j < |s| ==> s[i].date <= s[j].date
  }

  /** Exchanges two entries of the array. */
  method Swap(a: array<Holiday>, i: nat, j: nat)
    requires i < a.Length && j < a.Length
    modifies a
    ensures a[i] == old(a[j]) && a[j] == old(a[i])
    ensures forall k :: 0 <= k < a.Length && k != i && k != j ==> a[k] == old(a[k])
    ensures multiset(a[..]) == multiset(old(a[..]))
  {
    a[i], a[j] := a[j], a[i];
  }

  /** Moves `a[i]` left into the sorted prefix `a[..i]`, leaving `a[i + 1..]` alone. */
  method Sink(a: array<Holiday>, i: nat)
    requires i < a.Length
    requires SortedByDate(a[..i])
    modifies a
    ensures SortedByDate(a[..i + 1])
    ensures forall q :: i < q < a.Length ==> a[q] == old(a[q])
    ensures multiset(a[..]) == multiset(old(a[..]))
  {
    var j := i;
    while j > 0 && a[j - 1].date > a[j].date
      invariant 0 <= j <= i
      invariant forall p, q :: 0 <= p < q <= i && p != j && q != j ==> a[p].date <= a[q].date
      invariant forall q :: j < q <= i ==> a[j].date < a[q].date
      invariant 0 < j < i ==> a[j - 1].date <= a[j + 1].date
      invariant forall q :: i < q < a.Length ==> a[q] == old(a[q])
      invariant multiset(a[..]) == multiset(old(a[..]))
    {
      Swap(a, j - 1, j);
      j := j - 1;
    }
  }

  /** `holidays.sort((a, b) => a.date.getTime() - b.date.getTime())`, in place. */
  method SortByDate(a: array<Holiday>)
    modifies a
    ensures SortedByDate(a[..])
    ensures multiset(a[..]) == multiset(old(a[..]))
  {
    var i := 0;
    while i < a.Length
      invariant 0 <= i <= a.Length
      invariant SortedByDate(a[..i])
      invariant multiset(a[..]) == multiset(old(a[..]))
    {
      Sink(a, i);
      i := i + 1;
    }
    assert a[..a.Length] == a[..];
  }

  // ---------------------------------------------------------------- the screen

  class HolidayManager {
    var holidays: seq<Holiday>
    var newHolidayName: string
    var newHolidayDate: string

    constructor ()
      ensures holidays == [] && newHolidayName == "" && newHolidayDate == ""
    {
      holidays, newHolidayName, newHolidayDate := [], "", "";
    }

    /** `fetchHolidays`: with a user, the list becomes that user's holidays; a rejected query
        or no user leaves it as it was. */
    method FetchHolidays(user: Option<User>, snapshot: Option<seq<HolidayDoc>>)
      modifies this`holidays
      ensures holidays == if user.Some? && snapshot.Some? then UserHolidays(snapshot.value, user.value.uid)
                          else old(holidays)
    {
      if user.Some? && snapshot.Some? {
        holidays := UserHolidays(snapshot.value, user.value.uid);
      }
    }

    /** `addHoliday`: `parse` is `new Date(...)` on the date input, `reply` the answer to `addDoc`. */
    method AddHoliday(user: Option<User>, parse: string -> Instant, reply: WriteResult)
      returns (stored: Option<HolidayDoc>, alert: Option<string>)
      modifies this`holidays, this`newHolidayName, this`newHolidayDate
      ensures var name, date := old(newHolidayName), old(newHolidayDate);
              if !(HasText(name) && date != "" && user.Some?) then
                stored.None? && alert.None? && unchanged(this)
              else if FindDuplicate(old(holidays), name, parse(date)).Some? then
                stored.None? && alert == Some(DuplicateAlert) && unchanged(this)
              else if reply.WriteFailed? then
                stored.None? && alert.None? && unchanged(this)
              else
                var h := Holiday(reply.id, name, parse(date));
                && stored == Some(ToDoc(h, user.value.uid)) && alert.None?
                && holidays == old(holidays) + [h]
                && newHolidayName == "" && newHolidayDate == ""
      ensures UniqueKeys(old(holidays), HolidayId) && (reply.Written? ==> !HasKey(old(holidays), HolidayId, reply.id)) ==>
                UniqueKeys(holidays, HolidayId)
    {
      stored, alert := None, None;
      if HasText(newHolidayName) && newHolidayDate != "" && user.Some? {
        var newDate := parse(newHolidayDate);
        var existing := FindDuplicate(holidays, newHolidayName, newDate);
        if existing.None? {
          if reply.WriteFailed? {
            return;
          }
          var h := Holiday(reply.id, newHolidayName, newDate);
          if UniqueKeys(holidays, HolidayId) && !HasKey(holidays, HolidayId, reply.id) {
            AppendFreshKeepsUnique(holidays, HolidayId, h);
          }
          stored := Some(ToDoc(h, user.value.uid));
          holidays := holidays + [h];
          newHolidayName := "";
          newHolidayDate := "";
        } else {
          alert := Some(DuplicateAlert);
        }
      }
    }

    /** `addFederalHolidays`: with a user, the candidates are written in turn; when every write
        succeeds the list becomes the old list followed by the new holidays, and a rejected write
        stops the import with the list unchanged (the writes before it stay stored). */
    method AddFederalHolidays(user: Option<User>, fetched: seq<FederalHoliday>, replies: seq<WriteResult>)
      returns (stored: seq<HolidayDoc>)
      modifies this`holidays
      ensures user.None? ==> stored == [] && holidays == old(holidays)
      ensures user.Some? ==>
                var cands := Candidates(old(holidays), fetched);
                var n := CompletedWrites(replies, |cands|);
                var added := Stamp(cands[..n], replies[..n]);
                && stored == ToDocs(added, user.value.uid)
                && holidays == (if n == |cands| then old(holidays) + added else old(holidays))
    {
      if user.None? {
        return [];
      }
      var newHolidays, complete := WriteNewHolidays(holidays, fetched, replies);
      if complete {
        holidays := holidays + newHolidays;
      }
      stored := ToDocs(newHolidays, user.value.uid);
    }

    /** `deleteHoliday`: after the backend deletes the document, every entry with that id goes. */
    method DeleteHoliday(id: string, deleted: bool)
      modifies this`holidays
      ensures holidays == if deleted then RemoveByKey(old(holidays), HolidayId, id) else old(holidays)
      ensures UniqueKeys(old(holidays), HolidayId) ==> UniqueKeys(holidays, HolidayId)
    {
      if deleted {
        if UniqueKeys(holidays, HolidayId) {
          RemoveKeepsUnique(holidays, HolidayId, id);
        }
        holidays := RemoveByKey(holidays, HolidayId, id);
      }
    }

    /** The sort the list view applies to the state array before rendering it. */
    method SortForDisplay()
      modifies this`holidays
      ensures SortedByDate(holidays)
      ensures multiset(holidays) == multiset(old(holidays))
    {
      var hs := holidays;
      var a := new Holiday[|hs|](j requires 0 <= j < |hs| => hs[j]);
      assert a[..] == hs;
      SortByDate(a);
      holidays := a[..];
    }
  }
}
