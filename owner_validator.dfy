/**
 * The stricter whole-owner rule (`validates_owner`): when the owner already
 * carries errors, the form gets one more error, under the owner's own key.
 */
module OwnerValidator {
  import opened Common
  import opened Owners
  import opened ErrorCollection

  /** The record's error collection after `validate` has looked at `owner`. */
  function Validation(record: ErrorMap, ownerSym: string, owner: Owner): ErrorMap {
    if owner.errors == map[] then record
    else AddMessage(record, ownerSym, InvalidDueTo(owner.errors))
  }

  /**
   * `OwnerValidator#validate`. The caller passes the owner `record.send(owner_sym)`
   * returns; the owner is only read, so its `valid?` is not run again.
   */
  method Validate(record: Errors, ownerSym: string, owner: Owner)
    modifies record
    ensures record.messages == Validation(old(record.messages), ownerSym, owner)
  {
    if owner.errors != map[] {
      record.Add(ownerSym, InvalidDueTo(owner.errors));
    }
  }

  /**
   * An owner with errors adds exactly one message, under the owner's key, and
   * that message embeds the owner's error map; every other key is untouched.
   */
  lemma AddsOneUnderOwnerKey(record: ErrorMap, ownerSym: string, owner: Owner)
    requires owner.errors != map[]
    ensures Validation(record, ownerSym, owner).Keys == record.Keys + {ownerSym}
    ensures Validation(record, ownerSym, owner)[ownerSym] == Lookup(record, ownerSym, []) + [InvalidDueTo(owner.errors)]
    ensures forall k :: k in record && k != ownerSym ==> Validation(record, ownerSym, owner)[k] == record[k]
  {
  }

  /** An owner without errors leaves the record's errors as they were. */
  lemma ValidOwnerLeavesRecord(record: ErrorMap, ownerSym: string, owner: Owner)
    requires owner.errors == map[]
    ensures Validation(record, ownerSym, owner) == record
  {
  }

  /** Messages already in the record are kept, in order. */
  lemma ValidationExtends(record: ErrorMap, ownerSym: string, owner: Owner)
    ensures Extends(record, Validation(record, ownerSym, owner))
  {
  }
}
