# simple_form_class in Dafny

`simple_form_class` provides form objects for Rails. A form presents one flat set of
attributes. Behind it, each attribute belongs to an *owner*: the form itself (`:self`)
or a bound model object (an ActiveRecord record, for instance). The form does three
things:

- It routes mass assignment to the owners.
- It validates itself together with its owners, copying the owners' error messages
  onto its own fields.
- It saves every owner and reports one combined result.

The repository also has `Mock`, a hash class that hides designated keys behind
attribute accessors.

This project models that core and proves properties of the model.

- **`Registry`** (registry.dfy): the class-level declarations.
  - `FormType` holds a class's owner list, its field table and the accessor
    methods its declarations defined. `add_owner` and `field` update them in place.
  - `ResolvedOwners` and `ResolvedFields` give the views that `self.owners` and
    `self.fields` return across a chain of ancestors. `ResolvedAccessors` gives the
    accessor Ruby's method lookup finds for each name: the nearest class's.
    `Resolve` bundles the three.
  - `FieldsForOwner` and `PermittedFieldsForOwner` are the field queries.
- **`Owners`** (owners.dfy): an owner as the form sees it. It is a record with:
  - its class name and the methods it responds to;
  - an attribute map and its own validation rules;
  - its error map;
  - counters of how often `valid?` and `save` ran, and the result `save` reports.
- **`ErrorCollection`** (errors.dfy): the form's `errors` object, a class updated in
  place by `add` and `clear`.
- **`OwnerValidator`** (owner_validator.dfy): the validator that reports an owner with
  errors under the owner's own key.
- **`FormSpec`** (form_spec.dfy): what a form computes, as functions of its state:
  - the construction sanity check;
  - the mass-assignment routing;
  - the owner validation pass, then the form's own rules;
  - `owner_hash` and `owners`;
  - the save fold.

  The lemmas about these functions carry most of the proved properties.
- **`Base`** (form.dfy): the form instance, a class that holds the form's own
  accessors, its bound owners, its params, its options and its error collection.
  - Each method of `SimpleFormClass::Base` is a method here that updates that state
    in place, and is proved against the `FormSpec` functions.
  - `New` is `Form.new(params, options) { |o| ... }`. It runs the binding block, the
    sanity check that raises `InvalidOwner`, and then mass assignment.
- **`Mock`** (mock.dfy): the class that `Mock.new(*keys)` generates.
  - It is a string-keyed hash whose accessorized keys live in slots.
  - Other keys are reachable through dynamic getters and setters.
  - The dispatch order is: the real accessors first, then `method_missing`.

Ruby symbols are strings: `:self` is `"self"` and `:base` is `"base"`. Nil is `Nil`
and truthiness is Ruby's: everything except `nil` and `false` is truthy. Owners are
values kept in the form's slot map, keyed by owner name; an absent key is a nil owner.
Firing an owner's `valid?` or `save` replaces its value in the map.

## Model

| member | source | states |
|---|---|---|
| Registry.FormType.AddOwner | lib/simple_form_class/base.rb:100-108 | an owner not yet registered is appended at the end of the list and gets its accessor (a plain one for `:self`, the reader of the bound object otherwise); a registered one changes nothing; the field table is untouched |
| Registry.FormType.Field | lib/simple_form_class/base.rb:40-51 | the field's owner is registered as by `add_owner`, the field's options are stored, replacing earlier options of the same name, and the field's accessor replaces any earlier one of that name: a plain accessor for `:self`, a delegation to the owner otherwise |
| Registry.OwnersInRegistrationOrder | lib/simple_form_class/base.rb:40-58 | `add_owner :test`, then a field of `:foo`, then one of `:self` give the owner list `[test, foo, self]` |
| Registry.Uniq | lib/simple_form_class/base.rb:57 | `uniq` returns a duplicate-free list with exactly the members of its input, each kept at its first occurrence and in the input's order |
| Registry.UniqOfNoDup | lib/simple_form_class/base.rb:57 | `uniq` leaves a duplicate-free list as it is |
| Registry.UniqKeepsPrefix | lib/simple_form_class/base.rb:56-57 | the class's own owners keep their places at the front of `own + inherited` after `uniq` |
| Registry.ResolvedOwners | lib/simple_form_class/base.rb:54-58 | the resolved owner list has no duplicates |
| Registry.ResolvedOwnersMembership | lib/simple_form_class/base.rb:54-58 | an owner is resolved exactly when the class or one of its ancestors declared it |
| Registry.OwnOwnersFirst | lib/simple_form_class/base.rb:54-58 | the class's own owners come first, in registration order |
| Registry.ResolvedFieldsDomain | lib/simple_form_class/base.rb:60-64 | a field is resolved exactly when the class or an ancestor declared it |
| Registry.AncestorFieldWins | lib/simple_form_class/base.rb:60-64 | because `merge!` lets the argument win, the options of a field come from the most distant ancestor that declares it |
| Registry.ResolvedWellFormed | lib/simple_form_class/base.rb:40-64 | when every declaration is valid, every resolved field's owner is a resolved owner, every resolved field has an accessor, and every accessor delegates only to a resolved owner |
| Registry.NearestAccessorWins | lib/simple_form_class/base.rb:46-50 | the accessor an instance finds for a name is the one defined by the nearest class of the chain that defines it |
| Registry.AccessorMatchesTable | lib/simple_form_class/base.rb:40-64 | when no owner shares a field's name and every class declaring the field gives it the same owner, the accessor found is the one the merged field table implies |
| Registry.RedeclaredFieldScenario | lib/simple_form_class/base.rb:40-64 | a parent's `field :x, owner: :a` redeclared in a subclass as `owner: :b` leaves `:a` in the merged table but makes `x` delegate to `:b` |
| Registry.PermittedAreWritableOwnFields | lib/simple_form_class/base.rb:74-80 | a permitted field of an owner is exactly one of its fields with `write` set; permitted fields are a subset of the owner's fields |
| ErrorCollection.Errors.constructor | lib/simple_form_class/base.rb:9 | a fresh error collection is empty |
| ErrorCollection.Errors.Add | lib/simple_form_class/base.rb:131 | `errors.add` appends one message under one key and changes no other key |
| ErrorCollection.Errors.Clear | lib/simple_form_class/base.rb:202-207 | clearing leaves no message |
| Owners.FirstMissing | lib/simple_form_class/base.rb:192 | `detect` finds nothing exactly when the owner has every listed method; what it finds is the first listed method the owner lacks |
| Owners.CheckFold | test/dummy/app/models/product.rb:3-4 | a rule that accepts its value leaves the errors as they were; one that rejects it appends exactly its message under its field, after the messages already there, and changes no other key |
| Owners.RunChecksNoMessages | test/dummy/app/models/product.rb:3-4 | an owner's rules leave no message exactly when every rule accepts, and then they leave no key at all |
| Owners.RunChecksNonEmptyEntries | test/dummy/app/models/product.rb:3-4 | every key the rules add holds at least one message |
| Owners.Validated | lib/simple_form_class/base.rb:119 | `owner.valid?` counts one run and changes nothing but the owner's errors, which are empty exactly when all its rules accept |
| OwnerValidator.Validate | lib/simple_form_class/owner_validator.rb:4-11 | the record's errors become `Validation`: unchanged for an owner without messages, else one more message under the owner's key |
| OwnerValidator.AddsOneUnderOwnerKey | lib/simple_form_class/owner_validator.rb:8-10 | an owner with errors adds exactly one message, embedding its errors, under the owner's key, and nothing elsewhere |
| OwnerValidator.ValidOwnerLeavesRecord | lib/simple_form_class/owner_validator.rb:8 | an owner with no messages leaves the record unchanged |
| OwnerValidator.ValidationExtends | lib/simple_form_class/owner_validator.rb:9 | the validator only appends |
| FormSpec.SaneIff | lib/simple_form_class/base.rb:190-198 | the sanity check passes exactly when every non-self owner is bound to an object with all four mandatory methods |
| FormSpec.InsanityNamesOffender | lib/simple_form_class/base.rb:190-198 | a raised `InvalidOwner` names a registered non-self owner; an unbound one is reported as `NilClass` lacking `attributes`, a bound one with a mandatory method it lacks |
| FormSpec.OwnerSliceContents | lib/simple_form_class/base.rb:143-157 | an owner's slice is the input restricted to that owner's fields, and to the writable ones when the input is request parameters |
| FormSpec.RoutingDelivers | lib/simple_form_class/base.rb:136-152 | after `attributes=`, a field present in the input holds the input's value at its owner, unless the input is filterable and the field lacks `write`; every other value stays as it was |
| FormSpec.UndeclaredReachesNoOwner | lib/simple_form_class/base.rb:155-157 | an input key that is not a declared field changes neither the form's accessors nor any owner |
| FormSpec.DelegatedPerKey | lib/simple_form_class/base.rb:126-134 | delegation appends an owner's messages under a key exactly when that key is a field of the form; no other key is created |
| FormSpec.OwnerPassPerKey | lib/simple_form_class/base.rb:114-124 | under each key, the owner pass appends, owner by owner in registry order, one `:base` message per invalid owner and that owner's messages for the key if it is a field |
| FormSpec.OwnerPassKeys | lib/simple_form_class/base.rb:126-134 | owner messages under keys that are not form fields are dropped: only `:base` and field names are added |
| FormSpec.OwnerPassExtends | lib/simple_form_class/base.rb:114-124 | the owner pass only appends |
| FormSpec.InvalidOwnerCollected | lib/simple_form_class/base.rb:119-121 | every invalid non-self owner contributes `"<owner> of class <class> is invalid"` under `:base` |
| FormSpec.OwnerPassAllValid | lib/simple_form_class/base.rb:114-124 | when every owner is valid the pass adds nothing |
| FormSpec.RulesPassExtends | lib/simple_form_class/base.rb:202-206 | the form's own rules only append |
| FormSpec.RulesPassPrefix | lib/simple_form_class/base.rb:202-206 | a later rule never removes what an earlier one reported |
| FormSpec.RulesPassClean | lib/simple_form_class/base.rb:202-206 | with all owners clean, the rules leave no message exactly when every field rule accepts its value |
| FormSpec.FormValidIff | lib/simple_form_class/base.rb:114-134 | `valid?` holds exactly when every non-self owner is valid and every field rule of the form accepts; the `if:` gate of `validates_owner` does not change the answer |
| FormSpec.InvalidOwnerAddsBase | lib/simple_form_class/base.rb:119-121 | after validation an invalid owner's message is under `:base` |
| FormSpec.OwnerGateOpen | lib/simple_form_class/base.rb:100-108 | a name whose accessor, as method lookup finds it, is an owner's reader reads the bound owner object, so an `if:` gate naming that owner is open |
| FormSpec.OwnerRuleReports | lib/simple_form_class/owner_validator.rb:4-11 | a `validates_owner` rule with its gate open reports an owner that has errors under the owner's key, embedding the errors it had after its own `valid?` |
| FormSpec.ValidationRepeatable | lib/simple_form_class/base.rb:202-207 | validating an unchanged form again gives the same errors |
| FormSpec.OwnerHashScenario | test/unit/base_test.rb:164-173 | for a class that registered `test`, `foo` and `self`, with `test` bound to an order and `foo` to a product, `owner_hash` has the keys `[test, foo, self]`, the order under `test`, the product under `foo` and the form under `self` |
| FormSpec.OwnerListMembership | lib/simple_form_class/base.rb:70-72 | `owners(except_self: true)` lists each bound non-self owner exactly once; without the option `:self` is listed too; the owners come in registry order |
| FormSpec.SaveResultIff | lib/simple_form_class/base.rb:91 | the save fold is true exactly when no bound non-self owner's `save` returned false |
| FormSpec.SaveCallsEachOwnerOnce | lib/simple_form_class/base.rb:91 | every bound non-self owner is saved exactly once, and nothing else is saved |
| FormSpec.SaveSucceedsIff | lib/simple_form_class/base.rb:82-94 | `save` is true exactly when the form is valid (if validation is on) and every non-self owner's `save` succeeds |
| FormSpec.InvalidFormSavesNothing | lib/simple_form_class/base.rb:85-87 | a form that fails validation returns false and saves no owner |
| FormSpec.UnvalidatedSaveSkipsValidation | lib/simple_form_class/base.rb:83-85 | with `validate: false` in the form's options no owner is validated, and every non-self owner is saved once |
| FormSpec.ValidatingSaveValidatesOnce | lib/simple_form_class/base.rb:85-86 | with validation on, `save` runs each non-self owner's `valid?` exactly once |
| Base.Form.constructor | lib/simple_form_class/base.rb:20-25 | params default to an empty hash; options are stored; the block's bindings become the slots; errors start empty |
| Base.Form.CheckIfSaneOwners | lib/simple_form_class/base.rb:190-198 | returns the fault of the first slot of `owner_hash` lacking a mandatory method, as `Insanity` defines it |
| Base.Form.PrivateAttributesAssign | lib/simple_form_class/base.rb:167-171 | every key of the slice is written to the form's own accessors |
| Base.Form.AssignAttributes | lib/simple_form_class/base.rb:136-152 | the form's accessors and owners become the routed state of `RoutedSelf` and `RoutedSlots` |
| Base.Form.DelegateOwnerErrorMessagesToSelf | lib/simple_form_class/base.rb:126-134 | the errors become `DelegatedErrors` of the owner's messages |
| Base.Form.ValidateOwner | lib/simple_form_class/base.rb:115-123 | one turn of the owner pass: the owner's `valid?` runs once, and only if it left errors the form gets the `:base` message and the owner's messages for its fields |
| Base.Form.OwnersMustBeValid | lib/simple_form_class/base.rb:114-124 | each non-self owner is validated once and the errors become the owner pass of `OwnerPass` |
| Base.Form.Set | lib/simple_form_class/base.rb:46-50 | for any name other than a non-self owner's own accessor, the writer method lookup finds makes the reader return the new value and changes no other name; a delegating writer changes only its owner's attribute, leaving its errors, counters and save result, and a plain one changes only the form's accessor |
| Base.Form.BindOwner | lib/simple_form_class/base.rb:106 | the owner's accessor writer rebinds that slot only |
| Base.Form.RunOwnRules | lib/simple_form_class/base.rb:202-206 | the errors become `RulesPass` of the form's rules, in declaration order |
| Base.Form.RunValidations | lib/simple_form_class/base.rb:202-207 | the owner pass, then the own rules; the result is `errors.empty?` |
| Base.Form.IsValid | lib/simple_form_class/base.rb:202-207 | `valid?` leaves exactly `ValidationErrors` and answers whether every owner and every field rule passed |
| Base.Form.Save | lib/simple_form_class/base.rb:82-94 | `save` returns and leaves the owners as `SaveSpec` says; the errors are those of validation when it ran, else untouched |
| Base.Form.SaveOwners | lib/simple_form_class/base.rb:89-93 | every owner of `owners(except_self: true)` is saved; the result is that none returned false |
| Base.Form.SaveBang | lib/simple_form_class/base.rb:96-98 | `save!` returns true when `save` does, or else raises `RecordInvalid` carrying the form's errors, which are those of the validation pass when it ran; the owners are left as `save` leaves them, and the params, options and own accessors are unchanged |
| Base.New | lib/simple_form_class/base.rb:20-30 | construction raises `InvalidOwner` exactly when the sanity check fails; otherwise the form is routed from its params and every non-self owner is bound and capable |
| Mock.StripEquals | lib/simple_form_class/mock.rb:66 | `gsub(/=/, '')` leaves no `=`, keeps exactly the other characters, and changes a name without `=` in nothing |
| Mock.StripEqualsAppend | lib/simple_form_class/mock.rb:66 | stripping a concatenation strips each part, so the characters other than `=` stay in their order |
| Mock.ExtractAllTable | lib/simple_form_class/mock.rb:83-85 | after extraction no accessorized key is left in the hash; the other entries stay |
| Mock.ExtractAllSlots | lib/simple_form_class/mock.rb:78-85 | an accessorized key listed once holds its initial value (nil if absent); one listed twice ends nil |
| Mock.StoredEffect | lib/simple_form_class/mock.rb:54-58 | `[]=` on an accessorized key writes its slot and leaves the hash; on any other key it stores the entry and leaves the slots |
| Mock.DispatchRaisesIff | lib/simple_form_class/mock.rb:64-74 | a call raises `NoMethodError` exactly when `respond_to?` is false |
| Mock.DispatchKeepsHidden | lib/simple_form_class/mock.rb:54-81 | no call puts an accessorized key into the hash |
| Mock.DynamicAccessRoundTrip | lib/simple_form_class/mock.rb:64-66 | `name = v` returns `v` and stores it in the hash, after which the dynamic getter returns `v` |
| Mock.AccessorRoundTrip | lib/simple_form_class/mock.rb:47 | an accessorized key's setter and getter round-trip, and the key stays out of the hash |
| Mock.MockHash.constructor | lib/simple_form_class/mock.rb:42-52 | the new hash is the initial hash after `extract_all_keys_to_accessors`, with every accessor key hidden |
| Mock.MockHash.ExtractKeyToAccessor | lib/simple_form_class/mock.rb:78-81 | the slot takes the entry (nil if absent) and the entry is deleted |
| Mock.MockHash.ExtractAllKeysToAccessors | lib/simple_form_class/mock.rb:83-85 | the state becomes `ExtractAll` over the accessorized keys in order |
| Mock.MockHash.Assign | lib/simple_form_class/mock.rb:54-58 | `[]=` returns the value and leaves the state `Stored` describes |
| Mock.MockHash.At | lib/simple_form_class/mock.rb:43 | a present key reads its entry and a missing one nil, whether the key is given as a symbol or a string |
| Mock.MockHash.AtIndifferent | lib/simple_form_class/mock.rb:43 | a symbol key and a string key of the same name read the same value |
| Mock.MockHash.Call | lib/simple_form_class/mock.rb:47-74 | a call returns and leaves what `Dispatch` says: the accessor reader and writer of line 47 first, then `method_missing` |
| Mock.HideScenario | test/unit/mock_test.rb:3-10 | `Mock.new(:hidden)` over `{"hidden" => "foo", "shown" => "bar"}` shows `{"shown" => "bar"}` and holds `"foo"` in the `hidden` slot |
| Mock.ShownScenario | test/unit/mock_test.rb:3-22 | over `{"hidden" => "foo", "shown" => "bar"}`, `shown = v` returns `v`, then `shown` and `[:shown]` give `v`, and the `hidden` slot still holds `"foo"` |
| Mock.HiddenScenario | test/unit/mock_test.rb:3-31 | over `{"hidden" => "foo", "shown" => "bar"}`, `hidden = v` returns `v`, then `hidden` gives `v`, and the hash is still exactly `{"shown" => "bar"}` |

## Where the code and its description differ

The model follows the code in each of these cases.

- **Field collisions.** `self.fields` merges the parent's table into the class's own
  table with `merge!` (base.rb:62), so in the table an inherited declaration
  overrides the subclass's own declaration of the same field (`AncestorFieldWins`).
  The accessors are methods, so for them the subclass's declaration wins
  (`NearestAccessorWins`). When a parent declares `field :x, owner: :a` and a
  subclass `field :x, owner: :b`, `attributes=` routes `x` to `:a`, and only `:a`
  lists `x` among its permitted fields, while `form.x` reads and writes `:b`
  (`RedeclaredFieldScenario`). Routing, error delegation and `permitted` use the
  table; `Read`, the `if:` gates and `Set` use the accessors.
- **Validation order.** `validate :owners_must_be_valid` is registered in `Base`
  itself (base.rb:38). The owner pass therefore runs before the rules that a
  subclass declares.
- **Where `validate: false` is read.** `save` reads `:validate` from the form's
  `options` (base.rb:83), not from its own arguments. The tests at
  test/unit/base_test.rb:97-102 and 295-297 call `save validate: false`; under the
  code that call still validates.
- **Gated owner validation.** The test at test/unit/base_test.rb:355-358 expects a
  form whose owner is invalid to be valid when the `validates_owner` gate is off.
  Under the code, `owners_must_be_valid` adds a `:base` message for every invalid
  owner, so the form is invalid (`FormValidIff`).
- **Unbound owners.** An unbound non-self owner is not skipped: the sanity check
  raises `InvalidOwner` for it at construction, since nil lacks `attributes`.
- **Save is not all-or-nothing.** A `save` returning false inside the transaction
  does not raise, so there is no rollback. The owners saved before it stay saved.

## Left out

- Callbacks: the `:initialize`, `:validation` and `:save` callbacks (base.rb:6, 12, 21, 90, 203) are ActiveModel machinery. Only the phase bodies are modelled.
- Transactions: the ActiveRecord transaction around saving (base.rb:89) is not modelled. Persistence happens outside the model.
- `persisted?` (base.rb:34-36) always returns false. It is not modelled.
- `params` and its alias `attributes` (base.rb:14-15) are the field `params`. `options` (base.rb:66-68) maps nil to `{}`; both are `FormOptions(None)`.
- Base.Form.Save: the arguments of `save` are passed on to each owner's `save` (base.rb:91). An owner's result is a fixed field of its record, so the arguments are not modelled.
- Base.Form.BindOwner: only binds an object. Setting an owner back to nil after construction, which makes `owners_must_be_valid` raise `NoMethodError`, is not modelled.
- Aliasing: one object bound to two owner keys is not modelled, because owners are values.
- Base.Form.Set: excludes the name of a non-self owner's own accessor (`OwnerAccessor`). In Ruby, `form.test = 5` rebinds the owner `test` to `5`, and the next `valid?` calls `5.valid?`. The model rebinds owners only to owner objects, through `BindOwner`. Reading such a name gives the bound owner as an `Object` of its class, so an `if:` gate that names an owner is open.
- FormSpec.Read: a name no class of the chain defines an accessor for reads the form's own attribute (nil unless set). Ruby raises `NoMethodError` for it.
- Base.Form.PrivateAttributesAssign: writes the form's own attributes for every `:self` field of the merged table. Ruby's `send("#{k}=", v)` (base.rb:169) goes through the accessor, which delegates to another owner when a subclass redeclared the parent's `:self` field for that owner. Likewise `send(owner)` in `get_owner` and `owners_must_be_valid` (base.rb:118, 163) is modelled as the owner's slot, even where a field of the same name later replaced the owner's accessor.
- Common.ErrorMap: an error collection is a map, so the order of its keys is not kept. ActiveModel keeps keys in insertion order. That order shows in the text `"is invalid due to #{owner.errors.messages}"` (owner_validator.rb:9), which `InvalidDueTo` holds as a map, and in the full messages of the `RecordInvalid` that `save!` raises. The order of the messages under one key is kept.
- Stored state of `self.owners` and `self.fields`:
  - `self.owners` appends the inherited list to the class's stored list on every call (base.rb:56), and `self.fields` merges in place (base.rb:62).
  - Only the views these calls return are modelled. The growth of the stored list can change where owners registered later in a subclass appear in the list.
- Symbol and string keys: plain Hash params with string keys do not match symbol field names under `slice`. The model has one kind of key.
- Owner validation rules: only presence and numericality rules are modelled. Blankness is limited to nil, false and strings made only of spaces, tabs, `\n` and `\r`; Rails' `blank?` also counts other whitespace, such as `\v` and `\f`.
- `validates_owner`: the macro that registers `OwnerValidator` with `owner:` and `if:` is not defined in lib/. It is taken to be an ordinary rule of the form, run in declaration order.
- `Mock.from_xml` (mock.rb:60-62) parses XML through a library. It is not modelled.
- `field` without `:owner` (base.rb:40-41): Ruby registers a nil owner and then `attr_accessor nil` raises `TypeError`. Registry.FormType.Field always takes an owner name, so this raise is not modelled.
- FormSpec.RulesWellFormed: a `validates_owner` rule must name a registered owner other than `:self`. In Ruby, an unknown name makes `record.send` raise `NoMethodError` (owner_validator.rb:6), and `:self` reads the nil `self` accessor, whose `errors` then raises. These raises are not modelled.
- Base.Form.constructor: the construction block (`yield self`, base.rb:25) only binds owners. Writes it could make to the form's own fields or to `params` before the sanity check are not modelled.
- FormSpec.ValidatingSaveValidatesOnce: counts only the form's own `valid?` call on each owner. An ActiveRecord owner validates again inside its own `save` (base.rb:91). `Saved` only counts that call and leaves the errors alone.
- Owners.Accepts: numericality accepts only integers. Rails also accepts numeric strings. The rule is commented out in test/dummy/app/models/product.rb:4 anyway.
- Mock.Dispatch: Hash's own methods take precedence over `method_missing`, so a key that shares a name with one of them is reachable only through `[]`. These methods are not modelled.
- Mock.RespondTo: the inherited `respond_to?` for Hash's own methods is not modelled, and neither is the `private` flag.
- Mock.IsWriterName: treats `=$` as "ends in `=`". Ruby's `$` also matches before a newline inside a method name.
- Mock.MockHash.constructor: requires accessor names without `=`. Ruby's `attr_accessor` raises `NameError` for every name that is not an identifier (`""`, `"a b"`, `"1x"`, as well as any name with `=`); only the `=` case is excluded here, and the `NameError` is not modelled. The initial hash is taken with its keys already converted to strings.
