/**
 * Owners: the external objects that hold part of a form's data. Each is
 * abstracted to a record with an attribute map, validation rules that give its
 * error map, and the result its `save` reports.
 */
module Owners {
  import opened Common

  /** `MANDATORY_OWNER_METHODS`, in the order `check_if_sane_owners!` tries them. */
  const MANDATORY: seq<string> := ["attributes", "attributes=", "valid?", "save"]

  /** The validation rules the model distinguishes: presence and numericality. */
  datatype CheckKind = Presence | Numericality

  /** `validates field, kind => true, message: message`. */
  datatype Check = Check(field: string, kind: CheckKind, message: string)

  /** Rails' `blank?` on the values of the model. */
  predicate Blank(v: Value) {
    v == Nil || v == Bool(false) || (v.Str? && forall i :: 0 <= i < |v.s| ==> v.s[i] in {' ', '\t', '\n', '\r'})
  }

  predicate Accepts(kind: CheckKind, v: Value) {
    match kind
    case Presence => !Blank(v)
    case Numericality => v.Int?
  }

  /** One rule applied to the value it reads: a failing rule adds its message under its field. */
  function CheckFold(c: Check, v: Value, errs: ErrorMap): (r: ErrorMap)
    ensures Accepts(c.kind, v) ==> r == errs
    ensures !Accepts(c.kind, v) ==> r.Keys == errs.Keys + {c.field}
    ensures !Accepts(c.kind, v) ==> r[c.field] == Lookup(errs, c.field, []) + [Text(c.message)]
    ensures forall k :: k in errs && k != c.field ==> r[k] == errs[k]
  {
    if Accepts(c.kind, v) then errs else AddMessage(errs, c.field, Text(c.message))
  }

  /** The rules `checks`, in order, over the attribute map `attrs`. */
  function RunChecks(checks: seq<Check>, attrs: map<string, Value>, errs: ErrorMap): ErrorMap
    decreases |checks|
  {
    if checks == [] then errs
    else
      var c := checks[|checks| - 1];
      CheckFold(c, Lookup(attrs, c.field, Nil), RunChecks(checks[..|checks| - 1], attrs, errs))
  }

  /** No message is left behind exactly when every rule accepts its value. */
  lemma {:induction false} RunChecksNoMessages(checks: seq<Check>, attrs: map<string, Value>)
    ensures NoMessages(RunChecks(checks, attrs, map[]))
        <==> forall i :: 0 <= i < |checks| ==> Accepts(checks[i].kind, Lookup(attrs, checks[i].field, Nil))
    ensures NoMessages(RunChecks(checks, attrs, map[])) <==> RunChecks(checks, attrs, map[]) == map[]
    decreases |checks|
  {
    if checks != [] {
      var init := checks[..|checks| - 1];
      RunChecksNoMessages(init, attrs);
      RunChecksNonEmptyEntries(init, attrs);
      assert forall i :: 0 <= i < |init| ==> init[i] == checks[i];
    }
  }

  /** Rules only ever add keys together with a message. */
  lemma {:induction false} RunChecksNonEmptyEntries(checks: seq<Check>, attrs: map<string, Value>)
    ensures forall k :: k in RunChecks(checks, attrs, map[]) ==> RunChecks(checks, attrs, map[])[k] != []
    decreases |checks|
  {
    if checks != [] {
      RunChecksNonEmptyEntries(checks[..|checks| - 1], attrs);
    }
  }

  /** An owner, as the form sees it. */
  datatype Owner = Owner(
    className: string,
    responds: set<string>,         // the methods the object responds to
    attributes: map<string, Value>,
    checks: seq<Check>,
    errors: ErrorMap,              // `owner.errors.messages`
    validations: nat,              // how many times `valid?` ran
    saveResult: bool,              // what `save` returns
    saves: nat)                    // how many times `save` ran

  /** `owner.valid?`: clears the owner's errors, runs its rules once, and counts the run. */
  function Validated(o: Owner): (r: Owner)
    ensures r == o.(errors := r.errors, validations := o.validations + 1)
    ensures NoMessages(r.errors) <==> forall i :: 0 <= i < |o.checks| ==> Accepts(o.checks[i].kind, Lookup(o.attributes, o.checks[i].field, Nil))
    ensures NoMessages(r.errors) <==> r.errors == map[]
  {
    RunChecksNoMessages(o.checks, o.attributes);
    o.(errors := RunChecks(o.checks, o.attributes, map[]), validations := o.validations + 1)
  }

  /** `owner.save`: counts the call; the result is the owner's own business. */
  function Saved(o: Owner): Owner {
    o.(saves := o.saves + 1)
  }

  /** `methods.detect { |m| not responds_to?(m) }`. */
  function FirstMissing(responds: set<string>, methods: seq<string>): (r: Option<string>)
    ensures r.None? <==> forall i :: 0 <= i < |methods| ==> methods[i] in responds
    ensures r.Some? ==> r.value in methods && r.value !in responds
    ensures r.Some? ==> exists i :: (0 <= i < |methods| && methods[i] == r.value
      && forall j :: 0 <= j < i ==> methods[j] in responds)
    decreases |methods|
  {
    if methods == [] then None
    else if methods[0] !in responds then Some(methods[0])
    else
      var rest := FirstMissing(responds, methods[1..]);
      assert forall i :: 1 <= i < |methods| ==> methods[i] == methods[1..][i - 1];
      FirstMissingShift(responds, methods, rest);
      rest
  }

  /** A method found missing in the tail of `methods` is the first missing one of `methods` itself. */
  lemma FirstMissingShift(responds: set<string>, methods: seq<string>, rest: Option<string>)
    requires methods != [] && methods[0] in responds
    requires rest.Some? ==> exists i :: (0 <= i < |methods[1..]| && methods[1..][i] == rest.value
      && forall j :: 0 <= j < i ==> methods[1..][j] in responds)
    ensures rest.Some? ==> exists i :: (0 <= i < |methods| && methods[i] == rest.value
      && forall j :: 0 <= j < i ==> methods[j] in responds)
  {
    if rest.Some? {
      var i :| 0 <= i < |methods[1..]| && methods[1..][i] == rest.value
        && forall j :: 0 <= j < i ==> methods[1..][j] in responds;
      assert methods[i + 1] == rest.value;
      assert forall j :: 1 <= j < i + 1 ==> methods[j] == methods[1..][j - 1];
    }
  }

  /** Whether an owner has every capability the form requires of it. */
  predicate Capable(o: Owner) {
    forall i :: 0 <= i < |MANDATORY| ==> MANDATORY[i] in o.responds
  }
}
