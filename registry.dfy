/**
 * The class-level registries of a form type: the ordered owner list filled by
 * `add_owner`, the field table filled by `field`, the accessor methods both
 * define, their merge with the superclass chain, and the two queries the
 * attribute router derives from the field table.
 */
module Registry {
  import opened Common

  /** The owner key of the form's own fields (`:self`). */
  const SELF: string := "self"

  /** The options given to `field`: `:owner` and `:write`. */
  datatype FieldOptions = FieldOptions(owner: string, write: bool)

  type FieldTable = map<string, FieldOptions>

  /**
   * The reader and writer methods a declaration defines for a name:
   * `attr_accessor` for a `:self` field or for `add_owner :self`, `delegate`
   * to the owner for any other field, and `attr_accessor` holding the owner
   * object itself for `add_owner` of any other owner.
   */
  datatype Accessor = SelfAccessor | Delegate(owner: string) | OwnerReader

  /** The accessor `field name, owner: owner` defines. */
  function FieldAccessor(owner: string): Accessor {
    if owner == SELF then SelfAccessor else Delegate(owner)
  }

  /** The accessor `add_owner owner` defines for a new owner. */
  function OwnerAccessorOf(owner: string): Accessor {
    if owner == SELF then SelfAccessor else OwnerReader
  }

  type AccessorTable = map<string, Accessor>

  /**
   * An owner list, a field table and the accessors: what one class body
   * declared itself (its `@owners`, its `@fields` and the methods it defined),
   * or the merged registry a form instance consults (`self.class.owners`,
   * `self.class.fields`, and the methods Ruby's lookup finds).
   */
  datatype Schema = Schema(owners: seq<string>, fields: FieldTable, accessors: AccessorTable)

  /** What one class body declared itself. */
  type Decl = Schema

  /** An accessor names a declared field or owner, and delegates only to a registered owner other than `:self`. */
  predicate AccessorWellFormed(s: Schema, n: string)
    requires n in s.accessors
  {
    && (n in s.fields || n in s.owners)
    && match s.accessors[n]
       case SelfAccessor => true
       case Delegate(o) => o in s.owners && o != SELF
       case OwnerReader => n in s.owners && n != SELF
  }

  /**
   * What `add_owner` and `field` keep true of a class body, and merging keeps
   * true of the registry: no owner twice, every field's owner is registered and
   * every field has an accessor.
   */
  predicate WellFormed(s: Schema) {
    && NoDup(s.owners)
    && (forall f :: f in s.fields ==> s.fields[f].owner in s.owners && f in s.accessors)
    && (forall n {:trigger s.accessors[n]} :: n in s.accessors ==> AccessorWellFormed(s, n))
  }

  /**
   * Within one class body a field's accessor is the one its `field` defined,
   * unless a later `add_owner` of the same name redefined it.
   */
  predicate DeclConsistent(d: Decl) {
    forall f :: f in d.fields ==> f in d.accessors && (d.accessors[f] == FieldAccessor(d.fields[f].owner) || f in d.owners)
  }

  /** The position of the first occurrence of `x` in `s`. */
  function FirstIndex(s: seq<string>, x: string): (i: nat)
    requires x in s
    ensures i < |s| && s[i] == x
    ensures forall j :: 0 <= j < i ==> s[j] != x
    decreases |s|
  {
    if s[0] == x then 0
    else
      var i := FirstIndex(s[1..], x) + 1;
      assert forall j :: 1 <= j < i ==> s[j] == s[1..][j - 1];
      i
  }

  /** Appending an element moves no first occurrence, and a new element's is the last position. */
  lemma FirstIndexAppend(init: seq<string>, x: string, y: string)
    requires y in init + [x]
    ensures y in init ==> FirstIndex(init + [x], y) == FirstIndex(init, y)
    ensures y !in init ==> FirstIndex(init + [x], y) == |init|
  {
    var s := init + [x];
    var i := FirstIndex(s, y);
    if y in init {
      var j := FirstIndex(init, y);
      assert s[j] == y;
      assert i <= j;
      assert init[i] == y;
    } else {
      assert forall j :: 0 <= j < |init| ==> s[j] == init[j];
    }
  }

  /** The order part of `uniq` for one more element. */
  lemma UniqOrderStep(init: seq<string>, x: string, p: seq<string>)
    requires forall y :: y in p <==> y in init
    requires forall i, j :: 0 <= i < j < |p| ==> FirstIndex(init, p[i]) < FirstIndex(init, p[j])
    ensures var r := if x in p then p else p + [x];
      forall i, j :: 0 <= i < j < |r| ==> FirstIndex(init + [x], r[i]) < FirstIndex(init + [x], r[j])
  {
    var r := if x in p then p else p + [x];
    forall i | 0 <= i < |r|
      ensures FirstIndex(init + [x], r[i]) == if i < |p| then FirstIndex(init, p[i]) else |init|
    {
      FirstIndexAppend(init, x, r[i]);
    }
  }

  /** Ruby's `Array#uniq`: the first occurrence of each element, in order. */
  function Uniq(s: seq<string>): (r: seq<string>)
    ensures NoDup(r)
    ensures forall x :: x in r <==> x in s
    ensures |r| <= |s|
    ensures forall i, j :: 0 <= i < j < |r| ==> FirstIndex(s, r[i]) < FirstIndex(s, r[j])
    decreases |s|
  {
    if s == [] then []
    else
      var init := s[..|s| - 1];
      var p := Uniq(init);
      var x := s[|s| - 1];
      assert s == init + [x];
      assert forall y :: y in s <==> y in init || y == x;
      UniqOrderStep(init, x, p);
      if x in p then p else p + [x]
  }

  lemma {:induction false} UniqOfNoDup(s: seq<string>)
    requires NoDup(s)
    ensures Uniq(s) == s
  {
    if s != [] {
      var init := s[..|s| - 1];
      assert NoDup(init);
      UniqOfNoDup(init);
      assert s[|s| - 1] !in init;
      assert init + [s[|s| - 1]] == s;
    }
  }

  /** `uniq` never moves an element of a duplicate-free prefix. */
  lemma {:induction false} UniqKeepsPrefix(a: seq<string>, b: seq<string>)
    requires NoDup(a)
    ensures |Uniq(a + b)| >= |a| && Uniq(a + b)[..|a|] == a
    decreases |b|
  {
    if b == [] {
      assert a + b == a;
      UniqOfNoDup(a);
    } else {
      var b' := b[..|b| - 1];
      UniqKeepsPrefix(a, b');
      assert (a + b)[..|a + b| - 1] == a + b';
    }
  }

  /**
   * The value `self.owners` returns for a class whose own declarations come
   * first in `chain`, followed by those of its superclass, its superclass's
   * superclass, and so on.
   */
  function ResolvedOwners(chain: seq<Decl>): (r: seq<string>)
    ensures NoDup(r)
  {
    if chain == [] then [] else Uniq(chain[0].owners + ResolvedOwners(chain[1..]))
  }

  /** The table `self.fields` returns: `@fields.merge!(superclass.fields)`. */
  function ResolvedFields(chain: seq<Decl>): FieldTable {
    if chain == [] then map[] else chain[0].fields + ResolvedFields(chain[1..])
  }

  /**
   * The accessor Ruby's method lookup finds for each name: the class's own
   * definition, else the nearest ancestor's.
   */
  function ResolvedAccessors(chain: seq<Decl>): AccessorTable {
    if chain == [] then map[] else ResolvedAccessors(chain[1..]) + chain[0].accessors
  }

  function Resolve(chain: seq<Decl>): Schema {
    Schema(ResolvedOwners(chain), ResolvedFields(chain), ResolvedAccessors(chain))
  }

  /** An owner is in the merged list iff some class of the chain registered it. */
  lemma {:induction false} ResolvedOwnersMembership(chain: seq<Decl>, x: string)
    ensures x in ResolvedOwners(chain) <==> exists i :: 0 <= i < |chain| && x in chain[i].owners
  {
    if chain != [] {
      ResolvedOwnersMembership(chain[1..], x);
      if x in ResolvedOwners(chain[1..]) {
        var i :| 0 <= i < |chain[1..]| && x in chain[1..][i].owners;
        assert x in chain[i + 1].owners;
      }
      if exists i :: 0 <= i < |chain| && x in chain[i].owners {
        var i :| 0 <= i < |chain| && x in chain[i].owners;
        if i > 0 {
          assert x in chain[1..][i - 1].owners;
        }
      }
    }
  }

  /** The class's own owners come first, in their registration order. */
  lemma OwnOwnersFirst(chain: seq<Decl>)
    requires chain != [] && NoDup(chain[0].owners)
    ensures |ResolvedOwners(chain)| >= |chain[0].owners|
    ensures ResolvedOwners(chain)[..|chain[0].owners|] == chain[0].owners
  {
    UniqKeepsPrefix(chain[0].owners, ResolvedOwners(chain[1..]));
  }

  /** A name is in the merged field table iff some class of the chain declared it. */
  lemma {:induction false} ResolvedFieldsDomain(chain: seq<Decl>, f: string)
    ensures f in ResolvedFields(chain) <==> exists i :: 0 <= i < |chain| && f in chain[i].fields
  {
    if chain != [] {
      ResolvedFieldsDomain(chain[1..], f);
      if f in ResolvedFields(chain[1..]) {
        var i :| 0 <= i < |chain[1..]| && f in chain[1..][i].fields;
        assert f in chain[i + 1].fields;
      }
      if exists i :: 0 <= i < |chain| && f in chain[i].fields {
        var i :| 0 <= i < |chain| && f in chain[i].fields;
        if i > 0 {
          assert f in chain[1..][i - 1].fields;
        }
      }
    }
  }

  /**
   * On a name collision the entry of the most distant ancestor that declares
   * the name wins: `merge!` lets the superclass table overwrite the class's own.
   */
  lemma {:induction false} AncestorFieldWins(chain: seq<Decl>, f: string, j: nat)
    requires j < |chain| && f in chain[j].fields
    requires forall i :: j < i < |chain| ==> f !in chain[i].fields
    ensures f in ResolvedFields(chain) && ResolvedFields(chain)[f] == chain[j].fields[f]
  {
    if j == 0 {
      ResolvedFieldsDomain(chain[1..], f);
      forall i | 0 <= i < |chain[1..]|
        ensures f !in chain[1..][i].fields
      {
        assert chain[1..][i] == chain[i + 1];
      }
    } else {
      AncestorFieldWins(chain[1..], f, j - 1);
    }
  }

  /** The nearest class of the chain that defines an accessor for a name provides it. */
  lemma {:induction false} NearestAccessorWins(chain: seq<Decl>, n: string, j: nat)
    requires j < |chain| && n in chain[j].accessors
    requires forall i :: 0 <= i < j ==> n !in chain[i].accessors
    ensures n in ResolvedAccessors(chain) && ResolvedAccessors(chain)[n] == chain[j].accessors[n]
  {
    if j > 0 {
      NearestAccessorWins(chain[1..], n, j - 1);
    }
  }

  /** Every class of the chain that declares the field gives it the same owner. */
  predicate SameOwnerEverywhere(chain: seq<Decl>, f: string) {
    forall i, j :: 0 <= i < |chain| && 0 <= j < |chain| && f in chain[i].fields && f in chain[j].fields ==>
      chain[i].fields[f].owner == chain[j].fields[f].owner
  }

  /**
   * When no owner shares a field's name and every class that declares the
   * field gives it the same owner, the accessor Ruby finds is the one the
   * merged field table implies.
   */
  lemma {:induction false} AccessorMatchesTable(chain: seq<Decl>, f: string)
    requires forall i :: 0 <= i < |chain| ==> WellFormed(chain[i]) && DeclConsistent(chain[i])
    requires f in ResolvedFields(chain) && f !in ResolvedOwners(chain)
    requires SameOwnerEverywhere(chain, f)
    ensures f in ResolvedAccessors(chain)
    ensures ResolvedAccessors(chain)[f] == FieldAccessor(ResolvedFields(chain)[f].owner)
  {
    var d := chain[0];
    var rest := chain[1..];
    assert WellFormed(d) && DeclConsistent(d);
    assert f !in d.owners by {
      ResolvedOwnersMembership(chain, f);
    }
    if f in d.fields {
      if f in ResolvedFields(rest) {
        ResolvedFieldsDomain(rest, f);
        var i :| 0 <= i < |rest| && f in rest[i].fields;
        assert rest[i] == chain[i + 1];
        ResolvedFieldWitness(rest, f);
      }
    } else {
      assert f !in d.accessors;
      assert f in ResolvedFields(rest);
      assert f !in ResolvedOwners(rest) by {
        ResolvedOwnersMembership(chain, f);
        ResolvedOwnersMembership(rest, f);
        forall i | 0 <= i < |rest|
          ensures f !in rest[i].owners
        {
          assert rest[i] == chain[i + 1];
        }
      }
      forall i | 0 <= i < |rest|
        ensures WellFormed(rest[i]) && DeclConsistent(rest[i])
      {
        assert rest[i] == chain[i + 1];
      }
      forall i, j | 0 <= i < |rest| && 0 <= j < |rest| && f in rest[i].fields && f in rest[j].fields
        ensures rest[i].fields[f].owner == rest[j].fields[f].owner
      {
        assert rest[i] == chain[i + 1] && rest[j] == chain[j + 1];
      }
      AccessorMatchesTable(rest, f);
    }
  }

  /** A merged entry is the entry of some class of the chain. */
  lemma {:induction false} ResolvedFieldWitness(chain: seq<Decl>, f: string)
    requires f in ResolvedFields(chain)
    ensures exists i :: 0 <= i < |chain| && f in chain[i].fields && chain[i].fields[f] == ResolvedFields(chain)[f]
  {
    if f in ResolvedFields(chain[1..]) {
      ResolvedFieldWitness(chain[1..], f);
      var i :| 0 <= i < |chain[1..]| && f in chain[1..][i].fields && chain[1..][i].fields[f] == ResolvedFields(chain[1..])[f];
      assert chain[i + 1] == chain[1..][i];
    } else {
      assert f in chain[0].fields;
    }
  }

  /** Merging well-formed class bodies gives a well-formed registry. */
  lemma {:induction false} ResolvedWellFormed(chain: seq<Decl>)
    requires forall i :: 0 <= i < |chain| ==> WellFormed(chain[i])
    ensures WellFormed(Resolve(chain))
  {
    if chain != [] {
      var d := chain[0];
      assert WellFormed(d);
      ResolvedWellFormed(chain[1..]);
      var rest := Resolve(chain[1..]);
      var r := Resolve(chain);
      assert forall x :: x in r.owners <==> x in d.owners || x in rest.owners;
      forall f | f in r.fields
        ensures r.fields[f].owner in r.owners && f in r.accessors
      {
        if f in rest.fields {
          assert rest.fields[f].owner in rest.owners && f in rest.accessors;
        }
      }
      forall n | n in r.accessors
        ensures AccessorWellFormed(r, n)
      {
        if n in d.accessors {
          assert AccessorWellFormed(d, n);
        } else {
          assert AccessorWellFormed(rest, n);
        }
      }
    }
  }

  /** `fields_for_owner(owner)`: the names whose `:owner` is `owner`. */
  function FieldsForOwner(fields: FieldTable, owner: string): set<string> {
    set f | f in fields && fields[f].owner == owner
  }

  /** `permitted_fields_for_owner(owner)`: those of them declared with `write: true`. */
  function PermittedFieldsForOwner(fields: FieldTable, owner: string): set<string> {
    set f | f in fields && fields[f].owner == owner && fields[f].write
  }

  /** A field is permitted for its owner exactly when it is writable, and never for another owner. */
  lemma PermittedAreWritableOwnFields(fields: FieldTable, owner: string, f: string)
    ensures f in PermittedFieldsForOwner(fields, owner)
        <==> f in FieldsForOwner(fields, owner) && fields[f].write
    ensures PermittedFieldsForOwner(fields, owner) <= FieldsForOwner(fields, owner)
  {
  }

  /**
   * A form class: its own `@owners` and `@fields` and the accessors it
   * defined, which `add_owner` and `field` extend, and the declarations of its
   * ancestors.
   */
  class FormType {
    var owners: seq<string>
    var fields: FieldTable
    var accessors: AccessorTable
    const ancestors: seq<Decl>

    function Own(): Decl
      reads this
    {
      Schema(owners, fields, accessors)
    }

    ghost predicate Valid()
      reads this
    {
      WellFormed(Own()) && DeclConsistent(Own())
    }

    constructor (ancestors: seq<Decl>)
      ensures Valid()
      ensures owners == [] && fields == map[] && accessors == map[] && this.ancestors == ancestors
    {
      owners := [];
      fields := map[];
      accessors := map[];
      this.ancestors := ancestors;
    }

    /** `add_owner`: registers an owner once, at the end of the list, with its accessor. */
    method AddOwner(owner: string)
      requires Valid()
      modifies this
      ensures Valid()
      ensures owners == if owner in old(owners) then old(owners) else old(owners) + [owner]
      ensures accessors == if owner in old(owners) then old(accessors) else old(accessors)[owner := OwnerAccessorOf(owner)]
      ensures fields == old(fields)
    {
      if owner !in owners {
        owners := owners + [owner];
        accessors := accessors[owner := OwnerAccessorOf(owner)];
      }
    }

    /**
     * `field`: registers the field's owner, then stores (or replaces) the
     * field's options and defines its accessor.
     */
    method Field(name: string, options: FieldOptions)
      requires Valid()
      modifies this
      ensures Valid()
      ensures owners == if options.owner in old(owners) then old(owners) else old(owners) + [options.owner]
      ensures fields == old(fields)[name := options]
      ensures accessors == (if options.owner in old(owners) then old(accessors)
                            else old(accessors)[options.owner := OwnerAccessorOf(options.owner)])[name := FieldAccessor(options.owner)]
    {
      AddOwner(options.owner);
      fields := fields[name := options];
      accessors := accessors[name := FieldAccessor(options.owner)];
    }

    function Chain(): seq<Decl>
      reads this
    {
      [Own()] + ancestors
    }

    /** `self.owners`. */
    function Owners(): seq<string>
      reads this
    {
      ResolvedOwners(Chain())
    }

    /** `self.fields`. */
    function Fields(): FieldTable
      reads this
    {
      ResolvedFields(Chain())
    }

    /** The accessor methods an instance finds by Ruby's method lookup. */
    function Accessors(): AccessorTable
      reads this
    {
      ResolvedAccessors(Chain())
    }
  }

  /**
   * `add_owner :test`, then a field owned by `:foo`, then one owned by `:self`
   * gives the owner list `[:test, :foo, :self]`.
   */
  method OwnersInRegistrationOrder() returns (owners: seq<string>)
    ensures owners == ["test", "foo", SELF]
  {
    var t := new FormType([Schema([], map[], map[])]);
    t.AddOwner("test");
    t.Field("foo_test", FieldOptions("foo", false));
    t.Field("self_test", FieldOptions(SELF, false));
    assert t.owners == ["test", "foo", SELF];
    assert t.Chain()[1..] == [Schema([], map[], map[])];
    assert ResolvedOwners(t.Chain()[1..]) == [] by {
      assert t.Chain()[1..][1..] == [];
    }
    assert t.owners + [] == t.owners;
    UniqOfNoDup(t.owners);
    owners := t.Owners();
  }

  /**
   * A parent declares `field :x, owner: :a` and its subclass `field :x, owner:
   * :b`: the merged table keeps the parent's `:a`, which `attributes=` routes
   * by, while the subclass's delegation to `:b` is the accessor `form.x` finds.
   */
  method RedeclaredFieldScenario() returns (tableOwner: string, accessor: Accessor)
    ensures tableOwner == "a" && accessor == Delegate("b")
  {
    var parent := new FormType([]);
    parent.Field("x", FieldOptions("a", false));
    var child := new FormType([parent.Own()]);
    child.Field("x", FieldOptions("b", false));
    var chain := child.Chain();
    assert chain[1] == parent.Own() && "x" in chain[1].fields;
    AncestorFieldWins(chain, "x", 1);
    NearestAccessorWins(chain, "x", 0);
    tableOwner := child.Fields()["x"].owner;
    accessor := child.Accessors()["x"];
  }
}
