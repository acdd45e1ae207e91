/** Values, messages and small collection helpers shared by every module of the model. */
module Common {

  datatype Option<T> = None | Some(value: T)

  /** A Ruby value, as far as the form needs to tell values apart. */
  datatype Value = Nil | Bool(b: bool) | Int(i: int) | Str(s: string)
    | Object(className: string)  // any other object, such as a bound owner, known by its class

  /** Ruby truthiness: everything except `nil` and `false` is true. */
  predicate Truthy(v: Value) {
    v != Nil && v != Bool(false)
  }

  /** One validation message in an error collection. */
  datatype Message =
    | Text(text: string)
      // "#{owner_sym} of class #{owner.class} is invalid", added under :base
    | OwnerInvalid(owner: string, className: string)
      // "is invalid due to #{owner.errors.messages}", added by the owner validator
    | InvalidDueTo(ownerErrors: map<string, seq<Message>>)

  /** An error collection: attribute name to its messages, in the order they were added. */
  type ErrorMap = map<string, seq<Message>>

  /** What a Ruby call can raise, as far as the model distinguishes it. */
  datatype Raise =
    | InvalidOwner(owner: string, className: string, missing: string)
    | RecordInvalid(errors: ErrorMap)
    | NoMethodError(name: string)
    | ArgumentError(name: string)

  /** The result of a call that either returns a value or raises. */
  datatype Outcome<T> = Returned(value: T) | Raised(error: Raise)

  function Lookup<K, V>(m: map<K, V>, k: K, default: V): V {
    if k in m then m[k] else default
  }

  /** `m.slice(*keys)` on a Ruby hash. */
  function Restrict<K, V>(m: map<K, V>, keys: set<K>): (r: map<K, V>)
    ensures r.Keys == m.Keys * keys
    ensures forall k :: k in r ==> r[k] == m[k]
  {
    map k | k in m && k in keys :: m[k]
  }

  predicate NoDup<T(==)>(s: seq<T>) {
    forall i, j :: 0 <= i < j < |s| ==> s[i] != s[j]
  }

  /** `errors.add(key, message)`: append one message under one key. */
  function AddMessage(errs: ErrorMap, key: string, msg: Message): (r: ErrorMap)
    ensures r.Keys == errs.Keys + {key}
    ensures r[key] == Lookup(errs, key, []) + [msg]
    ensures forall k :: k in errs && k != key ==> r[k] == errs[k]
  {
    errs[key := Lookup(errs, key, []) + [msg]]
  }

  /** `errors.empty?`: no key holds a message. */
  predicate NoMessages(errs: ErrorMap) {
    forall k :: k in errs ==> errs[k] == []
  }

  /** Every key of `a` is in `b`, and its messages in `b` start with those in `a`. */
  predicate Extends(a: ErrorMap, b: ErrorMap) {
    forall k :: k in a ==> k in b && a[k] <= b[k]
  }
}
