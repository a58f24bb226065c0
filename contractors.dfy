/** The contractor form: create a contractor for the signed-in user, delete one. */
module Contractors {
  import opened Common
  import opened Seqs
  import opened Session

  /** A contractor as the form appends it: the document's fields and its id. */
  datatype Contractor = Contractor(id: string, name: string, color: string, userId: string, domain: string)

  const DefaultColor: string := "#000000"
  const LoginRequired: string := "You must be logged in to create a contractor"
  const CreateFailed: string := "Failed to create contractor"
  const DeleteFailed: string := "Failed to delete contractor"

  function ContractorId(c: Contractor): string
  {
    c.id
  }

  class ContractorForm {
    /** The shared contractor list of the surrounding context, which the form updates. */
    var contractors: seq<Contractor>
    var name: string
    var color: string
    var error: string

    constructor (contractors: seq<Contractor>)
      ensures this.contractors == contractors
      ensures name == "" && color == DefaultColor && error == ""
    {
      this.contractors := contractors;
      name, color, error := "", DefaultColor, "";
    }

    /** `handleSubmit`: `reply` is the answer to `addDoc`. */
    method HandleSubmit(user: Option<User>, reply: WriteResult) returns (stored: Option<Contractor>)
      modifies this`contractors, this`name, this`color, this`error
      ensures user.None? ==>
                && error == LoginRequired && stored.None?
                && contractors == old(contractors) && name == old(name) && color == old(color)
      ensures user.Some? && reply.WriteFailed? ==>
                && error == CreateFailed && stored.None?
                && contractors == old(contractors) && name == old(name) && color == old(color)
      ensures user.Some? && reply.Written? ==>
                var c := Contractor(reply.id, old(name), old(color), user.value.uid, UserDomain(user.value));
                && stored == Some(c) && contractors == old(contractors) + [c]
                && name == "" && color == DefaultColor && error == ""
      ensures UniqueKeys(old(contractors), ContractorId) &&
              (reply.Written? ==> !HasKey(old(contractors), ContractorId, reply.id)) ==>
                UniqueKeys(contractors, ContractorId)
    {
      error := "";
      stored := None;
      if user.None? {
        error := LoginRequired;
        return;
      }
      if reply.WriteFailed? {
        error := CreateFailed;
        return;
      }
      var added := Contractor(reply.id, name, color, user.value.uid, UserDomain(user.value));
      if UniqueKeys(contractors, ContractorId) && !HasKey(contractors, ContractorId, reply.id) {
        AppendFreshKeepsUnique(contractors, ContractorId, added);
      }
      stored := Some(added);
      contractors := contractors + [added];
      name := "";
      color := DefaultColor;
    }

    /** `deleteContractor`: `deleted` says whether the backend accepted the delete. */
    method DeleteContractor(id: string, deleted: bool)
      modifies this`contractors, this`error
      ensures deleted ==> contractors == RemoveByKey(old(contractors), ContractorId, id) && error == old(error)
      ensures !deleted ==> contractors == old(contractors) && error == DeleteFailed
      ensures UniqueKeys(old(contractors), ContractorId) ==> UniqueKeys(contractors, ContractorId)
    {
      if deleted {
        if UniqueKeys(contractors, ContractorId) {
          RemoveKeepsUnique(contractors, ContractorId, id);
        }
        contractors := RemoveByKey(contractors, ContractorId, id);
      } else {
        error := DeleteFailed;
      }
    }
  }
}
