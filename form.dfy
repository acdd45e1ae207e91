/**
 * `SimpleFormClass::Base` instances: a form that keeps its own accessors,
 * a set of bound owners and an error collection, and updates them in place.
 * Each method is proved against the functions of `FormSpec`.
 */
module Base {
  import opened Common
  import opened Registry
  import opened Owners
  import opened FormSpec
  import opened ErrorCollection
  import OwnerValidator

  class Form {
    /** The class's resolved registry (`self.class.owners`, `self.class.fields`). */
    const schema: Schema
    /** The class's own validation rules, in declaration order. */
    const rules: seq<Rule>
    const errors: Errors
    var params: Input
    var options: FormOptions
    /** The form's own accessors: `:self` fields and any other `attr_accessor`. */
    var selfAttrs: map<string, Value>
    /** The bound owners, by owner key; an absent key is a nil owner. */
    var slots: map<string, Owner>

    ghost predicate Valid()
      reads this
    {
      Ready(schema, slots) && RulesWellFormed(schema, rules)
    }

    /** `initialize` up to the sanity check: stores params and options, then runs the block's bindings. */
    constructor (schema: Schema, rules: seq<Rule>, params: Option<Input>, options: FormOptions, bindings: map<string, Owner>)
      ensures this.schema == schema && this.rules == rules
      ensures this.params == (if params.Some? then params.value else Input(map[], false))
      ensures this.options == options && selfAttrs == map[] && slots == bindings
      ensures fresh(errors) && errors.messages == map[]
    {
      this.schema := schema;
      this.rules := rules;
      this.params := if params.Some? then params.value else Input(map[], false);
      this.options := options;
      selfAttrs := map[];
      slots := bindings;
      errors := new Errors();
    }

    /** `check_if_sane_owners!`: the fault for the first slot of `owner_hash` that lacks a mandatory method. */
    method CheckIfSaneOwners() returns (fault: Option<Raise>)
      ensures fault == Insanity(schema.owners, slots)
    {
      var i := 0;
      while i < |schema.owners|
        invariant 0 <= i <= |schema.owners|
        invariant Insanity(schema.owners, slots) == Insanity(schema.owners[i..], slots)
      {
        var problem := SlotProblem(schema.owners[i], slots);
        if problem.Some? {
          return problem;
        }
        assert schema.owners[i..][1..] == schema.owners[i + 1..];
        i := i + 1;
      }
      assert schema.owners[i..] == [];
      return None;
    }

    /** `private_attributes=`: calls the writer of every key. */
    method PrivateAttributesAssign(slice: map<string, Value>)
      modifies this
      ensures selfAttrs == old(selfAttrs) + slice
      ensures slots == old(slots) && params == old(params) && options == old(options)
    {
      var todo := slice.Keys;
      while todo != {}
        invariant todo <= slice.Keys
        invariant selfAttrs == old(selfAttrs) + Restrict(slice, slice.Keys - todo)
        invariant slots == old(slots) && params == old(params) && options == old(options)
        decreases todo
      {
        var k :| k in todo;
        selfAttrs := selfAttrs[k := slice[k]];
        todo := todo - {k};
      }
      assert Restrict(slice, slice.Keys - todo) == slice;
    }

    /** `attributes=`: routes each owner's slice of the input to it, in registry order. */
    method AssignAttributes(input: Input)
      requires Valid()
      modifies this
      ensures Valid()
      ensures selfAttrs == RoutedSelf(schema, input, old(selfAttrs), schema.owners)
      ensures slots == RoutedSlots(schema, input, old(slots), schema.owners)
      ensures params == old(params) && options == old(options)
    {
      var i := 0;
      while i < |schema.owners|
        invariant 0 <= i <= |schema.owners|
        invariant selfAttrs == RoutedSelf(schema, input, old(selfAttrs), schema.owners[..i])
        invariant slots == RoutedSlots(schema, input, old(slots), schema.owners[..i])
        invariant params == old(params) && options == old(options)
      {
        var owner := schema.owners[i];
        var slice := OwnerSlice(schema.fields, input, owner);
        assert schema.owners[..i + 1] == schema.owners[..i] + [owner];
        assert owner !in schema.owners[..i];
        if owner == SELF {
          PrivateAttributesAssign(slice);
        } else {
          RoutedSlotsStep(schema, input, old(slots), schema.owners[..i], owner);
          slots := slots[owner := slots[owner].(attributes := slots[owner].attributes + slice)];
        }
        i := i + 1;
      }
      assert schema.owners[..i] == schema.owners;
    }

    /** `delegate_owner_error_messages_to_self`: adds each of the owner's messages under its attribute, if that is a field. */
    method DelegateOwnerErrorMessagesToSelf(owner: Owner)
      modifies errors
      ensures errors.messages == DelegatedErrors(old(errors.messages), owner.errors, schema.fields.Keys)
    {
      var todo := owner.errors.Keys;
      ghost var done: set<string> := {};
      assert Restrict(owner.errors, done) == map[];
      DelegatedNothing(old(errors.messages), schema.fields.Keys);
      while todo != {}
        invariant todo + done == owner.errors.Keys && todo !! done
        invariant errors.messages == DelegatedErrors(old(errors.messages), Restrict(owner.errors, done), schema.fields.Keys)
        decreases todo
      {
        var attribute :| attribute in todo;
        DelegateStep(old(errors.messages), owner.errors, schema.fields.Keys, done, attribute);
        if attribute in schema.fields {
          var messages := owner.errors[attribute];
          ghost var before := errors.messages;
          var j := 0;
          while j < |messages|
            invariant 0 <= j <= |messages|
            invariant errors.messages == Appended(before, attribute, messages[..j])
          {
            AppendedStep(before, attribute, messages, j);
            errors.Add(attribute, messages[j]);
            j := j + 1;
          }
          assert messages[..j] == messages;
        }
        todo := todo - {attribute};
        done := done + {attribute};
      }
      assert Restrict(owner.errors, done) == owner.errors;
    }

    /** `owners_must_be_valid`: runs `valid?` on each non-self owner and reports the invalid ones. */
    method OwnersMustBeValid()
      requires Valid()
      modifies this, errors
      ensures Valid()
      ensures slots == ValidatedSlots(old(slots), schema.owners)
      ensures errors.messages == OwnerPass(schema, old(slots), schema.owners, old(errors.messages))
      ensures selfAttrs == old(selfAttrs) && params == old(params) && options == old(options)
    {
      var i := 0;
      while i < |schema.owners|
        invariant 0 <= i <= |schema.owners|
        invariant slots == ValidatedSlots(old(slots), schema.owners[..i])
        invariant errors.messages == OwnerPass(schema, old(slots), schema.owners[..i], old(errors.messages))
        invariant selfAttrs == old(selfAttrs) && params == old(params) && options == old(options)
      {
        var key := schema.owners[i];
        ghost var done := schema.owners[..i];
        assert key !in done;
        OwnerPassStep(schema, old(slots), done, key, old(errors.messages));
        if key != SELF {
          ValidatedSlotsStep(old(slots), done, key);
          assert slots[key] == old(slots)[key];
          ValidateOwner(key);
        } else {
          ValidatedSlotsSkipSelf(old(slots), done);
        }
        assert slots == ValidatedSlots(old(slots), done + [key]);
        assert errors.messages == OwnerPass(schema, old(slots), done + [key], old(errors.messages));
        assert schema.owners[..i + 1] == done + [key];
        i := i + 1;
      }
      assert schema.owners[..i] == schema.owners;
    }

    /**
     * One turn of `owners_must_be_valid`: runs the owner's `valid?` and, if it
     * failed, reports the owner under `:base` and copies its messages.
     */
    method ValidateOwner(key: string)
      requires key in slots
      modifies this, errors
      ensures slots == old(slots)[key := Validated(old(slots)[key])]
      ensures errors.messages == OwnerFold(schema.fields, old(errors.messages), key, Validated(old(slots)[key]))
      ensures selfAttrs == old(selfAttrs) && params == old(params) && options == old(options)
    {
      var owner := Validated(slots[key]);
      slots := slots[key := owner];
      if !NoMessages(owner.errors) {
        errors.Add(BASE, OwnerInvalid(key, owner.className));
        DelegateOwnerErrorMessagesToSelf(owner);
      }
    }

    /**
     * The generic reader, through the accessor Ruby's method lookup finds: the
     * owner's attribute through the delegator, an owner's accessor, or the
     * form's own accessor.
     */
    function Get(name: string): Value
      requires Valid()
      reads this
    {
      Read(schema, selfAttrs, slots, name)
    }

    /**
     * The generic writer of a field through the accessor Ruby's method lookup
     * finds, which works regardless of the `:write` flag. Writing an owner's
     * own accessor rebinds the owner, which `BindOwner` does.
     */
    method Set(name: string, v: Value)
      requires Valid() && !OwnerAccessor(schema, name)
      modifies this
      ensures Valid()
      ensures Get(name) == v
      ensures forall n :: n != name ==> Get(n) == old(Get(n))
      ensures slots.Keys == old(slots.Keys)
      ensures name in schema.accessors && schema.accessors[name].Delegate? ==>
        var o := schema.accessors[name].owner;
        && slots == old(slots)[o := old(slots)[o].(attributes := old(slots)[o].attributes[name := v])]
        && selfAttrs == old(selfAttrs)
      ensures !(name in schema.accessors && schema.accessors[name].Delegate?) ==>
        slots == old(slots) && selfAttrs == old(selfAttrs)[name := v]
      ensures params == old(params) && options == old(options)
    {
      if name in schema.accessors && schema.accessors[name].Delegate? {
        var o := schema.accessors[name].owner;
        slots := slots[o := slots[o].(attributes := slots[o].attributes[name := v])];
      } else {
        selfAttrs := selfAttrs[name := v];
      }
    }

    /** The owner accessor's writer: binds the owner key to another object. */
    method BindOwner(key: string, owner: Owner)
      requires Valid() && key in schema.owners && key != SELF
      modifies this
      ensures Valid()
      ensures slots == old(slots)[key := owner]
      ensures selfAttrs == old(selfAttrs) && params == old(params) && options == old(options)
    {
      slots := slots[key := owner];
    }

    /** The form's own rules, in declaration order, after the owner pass. */
    method RunOwnRules()
      requires Valid()
      modifies errors
      ensures errors.messages == RulesPass(schema, rules, selfAttrs, slots, old(errors.messages))
    {
      for i := 0 to |rules|
        invariant RulesWellFormed(schema, rules[..i])
        invariant errors.messages == RulesPass(schema, rules[..i], selfAttrs, slots, old(errors.messages))
      {
        assert rules[..i + 1][..i] == rules[..i];
        assert rules[..i + 1][i] == rules[i];
        assert RulesWellFormed(schema, rules[..i + 1]);
        match rules[i]
        case FieldCheck(c) =>
          var v := Get(c.field);
          if !Accepts(c.kind, v) {
            errors.Add(c.field, Text(c.message));
          }
        case ValidatesOwner(o, gate) =>
          var open := gate.None? || Truthy(Get(gate.value));
          if open {
            OwnerValidator.Validate(errors, o, slots[o]);
          }
      }
      assert rules[..|rules|] == rules;
    }

    /** `run_validations!` with its callback: the owner pass, then the own rules; true when no message is left. */
    method RunValidations() returns (b: bool)
      requires Valid()
      modifies this, errors
      ensures Valid()
      ensures slots == ValidatedSlots(old(slots), schema.owners)
      ensures errors.messages
           == RulesPass(schema, rules, selfAttrs, slots, OwnerPass(schema, old(slots), schema.owners, old(errors.messages)))
      ensures b == NoMessages(errors.messages)
      ensures selfAttrs == old(selfAttrs) && params == old(params) && options == old(options)
    {
      OwnersMustBeValid();
      RunOwnRules();
      b := errors.IsEmpty();
    }

    /** `valid?`: clears the errors and runs a fresh validation pass. */
    method IsValid() returns (b: bool)
      requires Valid()
      modifies this, errors
      ensures Valid()
      ensures slots == ValidatedSlots(old(slots), schema.owners)
      ensures errors.messages == ValidationErrors(schema, rules, old(selfAttrs), old(slots))
      ensures b == NoMessages(errors.messages)
      ensures b <==> OwnersValid(schema, old(slots)) && ChecksAccept(schema, rules, old(selfAttrs), old(slots))
      ensures selfAttrs == old(selfAttrs) && params == old(params) && options == old(options)
    {
      errors.Clear();
      b := RunValidations();
      FormValidIff(schema, rules, selfAttrs, old(slots));
    }

    /** `save`: validates unless `options[:validate]` is false, then saves every bound non-self owner. */
    method Save() returns (r: bool)
      requires Valid()
      modifies this, errors
      ensures Valid()
      ensures r == SaveSpec(schema, rules, old(options), old(selfAttrs), old(slots)).saved
      ensures slots == SaveSpec(schema, rules, old(options), old(selfAttrs), old(slots)).slots
      ensures SaveSwitch(old(options)) ==> errors.messages == ValidationErrors(schema, rules, old(selfAttrs), old(slots))
      ensures !SaveSwitch(old(options)) ==> errors.messages == old(errors.messages)
      ensures selfAttrs == old(selfAttrs) && params == old(params) && options == old(options)
    {
      var validate := SaveSwitch(options);
      if validate {
        var ok := IsValid();
        if !ok {
          return false;
        }
      }
      r := SaveOwners();
    }

    /** The `:save` callback block: every bound non-self owner's `save`, all called; true unless one returned false. */
    method SaveOwners() returns (r: bool)
      requires Valid()
      modifies this
      ensures Valid()
      ensures r == AllSaved(old(slots), OwnerList(schema.owners, old(slots), true))
      ensures slots == SavedSlots(old(slots), OwnerList(schema.owners, old(slots), true))
      ensures selfAttrs == old(selfAttrs) && params == old(params) && options == old(options)
    {
      var keys := OwnerList(schema.owners, slots, true);
      forall k
        ensures k in keys ==> k in slots
        ensures NoDup(keys)
      {
        OwnerListMembership(schema, slots, true, k);
      }
      r := true;
      for i := 0 to |keys|
        invariant slots == SavedSlots(old(slots), keys[..i])
        invariant r == AllSaved(old(slots), keys[..i])
        invariant slots.Keys == old(slots).Keys
        invariant selfAttrs == old(selfAttrs) && params == old(params) && options == old(options)
      {
        var key := keys[i];
        assert keys[..i + 1] == keys[..i] + [key];
        assert key !in keys[..i];
        SavedStep(old(slots), keys[..i], key);
        var result := slots[key].saveResult;
        slots := slots[key := Saved(slots[key])];
        r := r && result;
      }
      assert keys[..|keys|] == keys;
    }

    /** `save!`: `save`, or the `RecordInvalid` fault carrying the form's errors. */
    method SaveBang() returns (r: Outcome<bool>)
      requires Valid()
      modifies this, errors
      ensures Valid()
      ensures SaveSpec(schema, rules, old(options), old(selfAttrs), old(slots)).saved ==> r == Returned(true)
      ensures !SaveSpec(schema, rules, old(options), old(selfAttrs), old(slots)).saved ==> r == Raised(RecordInvalid(errors.messages))
      ensures slots == SaveSpec(schema, rules, old(options), old(selfAttrs), old(slots)).slots
      ensures SaveSwitch(old(options)) ==> errors.messages == ValidationErrors(schema, rules, old(selfAttrs), old(slots))
      ensures !SaveSwitch(old(options)) ==> errors.messages == old(errors.messages)
      ensures selfAttrs == old(selfAttrs) && params == old(params) && options == old(options)
    {
      var ok := Save();
      if ok {
        r := Returned(true);
      } else {
        r := Raised(RecordInvalid(errors.messages));
      }
    }
  }

  /**
   * `Form.new(params, options) { |o| ... }` for a form class `t`: builds the
   * form, raises `InvalidOwner` for the first slot without a mandatory method,
   * and otherwise routes the params to the owners.
   */
  method New(t: FormType, rules: seq<Rule>, params: Option<Input>, options: FormOptions, bindings: map<string, Owner>)
    returns (r: Outcome<Form>)
    requires t.Valid() && forall i :: 0 <= i < |t.ancestors| ==> WellFormed(t.ancestors[i])
    requires RulesWellFormed(Resolve(t.Chain()), rules)
    ensures r.Raised? <==> Insanity(Resolve(t.Chain()).owners, bindings).Some?
    ensures r.Raised? ==> r.error == Insanity(Resolve(t.Chain()).owners, bindings).value
    ensures r.Returned? ==>
      var f := r.value;
      var input := if params.Some? then params.value else Input(map[], false);
      && fresh(f) && fresh(f.errors) && f.Valid()
      && f.schema == Resolve(t.Chain()) && f.rules == rules && f.params == input && f.options == options
      && f.selfAttrs == RoutedSelf(f.schema, input, map[], f.schema.owners)
      && f.slots == RoutedSlots(f.schema, input, bindings, f.schema.owners)
      && (forall k :: k in f.schema.owners && k != SELF ==> Capable(f.slots[k]))
      && f.errors.messages == map[]
  {
    var schema := Resolve(t.Chain());
    assert forall i :: 0 <= i < |t.Chain()| ==> WellFormed(t.Chain()[i]) by {
      assert forall i :: 1 <= i < |t.Chain()| ==> t.Chain()[i] == t.ancestors[i - 1];
    }
    ResolvedWellFormed(t.Chain());
    var f := new Form(schema, rules, params, options, bindings);
    var fault := f.CheckIfSaneOwners();
    if fault.Some? {
      return Raised(fault.value);
    }
    SaneIff(schema.owners, bindings);
    f.AssignAttributes(f.params);
    return Returned(f);
  }
}
