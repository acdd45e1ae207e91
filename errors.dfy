/** The mutable error collection of a form (`errors`), which validation fills in place. */
module ErrorCollection {
  import opened Common

  class Errors {
    var messages: ErrorMap

    constructor ()
      ensures messages == map[]
    {
      messages := map[];
    }

    /** `errors.add(key, message)`: appends one message under one key. */
    method Add(key: string, msg: Message)
      modifies this
      ensures messages == AddMessage(old(messages), key, msg)
    {
      messages := messages[key := Lookup(messages, key, []) + [msg]];
    }

    /** `errors.clear`, which `valid?` does before the rules run. */
    method Clear()
      modifies this
      ensures messages == map[]
    {
      messages := map[];
    }

    /** `errors.empty?`. */
    function IsEmpty(): (b: bool)
      reads this
    {
      NoMessages(messages)
    }
  }
}
