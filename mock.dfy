/**
 * `SimpleFormClass::Mock.new(*keys)`: a hash with indifferent access in which
 * the "accessorized" keys are pulled out of the hash into attribute slots,
 * and every other key is also reachable through a dynamic getter and setter.
 */
module Mock {
  import opened Common

  /** A hash key as given: a symbol or a string. Indifferent access compares `to_s`. */
  datatype Key = SymbolKey(name: string) | StringKey(name: string)

  function KeyString(k: Key): string {
    k.name
  }

  /** `name =~ /=$/`. */
  predicate IsWriterName(name: string) {
    |name| > 0 && name[|name| - 1] == '='
  }

  /** `name.gsub(/=/, '')`: every `=` removed. */
  function StripEquals(s: string): (r: string)
    ensures '=' !in r
    ensures '=' !in s ==> r == s
    ensures |r| <= |s|
    ensures forall c :: c in r <==> c in s && c != '='
    decreases |s|
  {
    if s == [] then []
    else
      var init := StripEquals(s[..|s| - 1]);
      if s[|s| - 1] == '=' then init
      else
        assert s == s[..|s| - 1] + [s[|s| - 1]];
        init + [s[|s| - 1]]
  }

  /** Stripping works character by character: the other characters stay, in their order. */
  lemma {:induction false} StripEqualsAppend(a: string, b: string)
    ensures StripEquals(a + b) == StripEquals(a) + StripEquals(b)
    decreases |b|
  {
    if b == [] {
      assert a + b == a;
    } else {
      var b' := b[..|b| - 1];
      StripEqualsAppend(a, b');
      assert (a + b)[..|a + b| - 1] == a + b';
      assert (a + b)[|a + b| - 1] == b[|b| - 1];
    }
  }

  /** The hash's entries and the accessors' slots. */
  datatype MockState = MockState(table: map<string, Value>, slots: map<string, Value>)

  /** Accessor names carry no `=`, and every one of them is a slot and no key of the hash. */
  predicate Hidden(accessorized: seq<string>, s: MockState) {
    && (forall i :: 0 <= i < |accessorized| ==> '=' !in accessorized[i])
    && (forall k :: k in accessorized ==> k !in s.table)
    && s.slots.Keys == set k | k in accessorized
  }

  /** `extract_key_to_accessor`: the slot takes the entry (nil if absent), then the entry is deleted. */
  function ExtractKey(s: MockState, key: string): MockState {
    MockState(s.table - {key}, s.slots[key := Lookup(s.table, key, Nil)])
  }

  /** `extract_all_keys_to_accessors`, key by key in the order given. */
  function ExtractAll(s: MockState, keys: seq<string>): MockState
    decreases |keys|
  {
    if keys == [] then s
    else ExtractKey(ExtractAll(s, keys[..|keys| - 1]), keys[|keys| - 1])
  }

  /** How often `k` occurs in `keys`. */
  function Occurrences(keys: seq<string>, k: string): nat
    decreases |keys|
  {
    if keys == [] then 0
    else Occurrences(keys[..|keys| - 1], k) + (if keys[|keys| - 1] == k then 1 else 0)
  }

  lemma {:induction false} OccurrencesPositive(keys: seq<string>, k: string)
    ensures Occurrences(keys, k) > 0 <==> k in keys
    decreases |keys|
  {
    if keys != [] {
      var init := keys[..|keys| - 1];
      OccurrencesPositive(init, k);
      assert keys == init + [keys[|keys| - 1]];
    }
  }

  /** After extraction no extracted key is left in the hash. */
  lemma {:induction false} ExtractAllTable(s: MockState, keys: seq<string>)
    ensures ExtractAll(s, keys).table == s.table - (set k | k in keys)
    decreases |keys|
  {
    if keys != [] {
      var init := keys[..|keys| - 1];
      ExtractAllTable(s, init);
      assert keys == init + [keys[|keys| - 1]];
      assert (set k | k in keys) == (set k | k in init) + {keys[|keys| - 1]};
    }
  }

  /**
   * The slot of a key listed once holds its entry (nil if absent); a key
   * listed twice is extracted a second time from a hash that no longer has
   * it, and ends nil. Other slots are untouched.
   */
  lemma {:induction false} ExtractAllSlots(s: MockState, keys: seq<string>, k: string)
    ensures k in keys ==>
      && k in ExtractAll(s, keys).slots
      && ExtractAll(s, keys).slots[k] == (if Occurrences(keys, k) == 1 then Lookup(s.table, k, Nil) else Nil)
    ensures k !in keys ==>
      && Lookup(ExtractAll(s, keys).slots, k, Nil) == Lookup(s.slots, k, Nil)
      && (k in ExtractAll(s, keys).slots <==> k in s.slots)
    decreases |keys|
  {
    if keys != [] {
      var init := keys[..|keys| - 1];
      var last := keys[|keys| - 1];
      assert keys == init + [last];
      ExtractAllSlots(s, init, k);
      if k == last {
        ExtractAllTable(s, init);
        OccurrencesPositive(init, k);
      }
    }
  }

  /** `[]=`: stores the entry, then extracts it if the key is accessorized. */
  function Stored(accessorized: seq<string>, s: MockState, key: string, v: Value): MockState {
    var t := MockState(s.table[key := v], s.slots);
    if key in accessorized then ExtractKey(t, key) else t
  }

  /** `[]=` writes the slot of an accessorized key and the entry of any other; nothing else changes. */
  lemma StoredEffect(accessorized: seq<string>, s: MockState, key: string, v: Value)
    requires Hidden(accessorized, s)
    ensures Hidden(accessorized, Stored(accessorized, s, key, v))
    ensures key in accessorized ==> Stored(accessorized, s, key, v) == MockState(s.table, s.slots[key := v])
    ensures key !in accessorized ==> Stored(accessorized, s, key, v) == MockState(s.table[key := v], s.slots)
  {
    if key in accessorized {
      assert s.table[key := v] - {key} == s.table;
    }
  }

  /** The outcome of one method call on the hash, and the state it leaves. */
  datatype Step = Step(result: Outcome<Value>, state: MockState)

  /**
   * A call `name(*args)`: the attribute reader or writer of an accessorized
   * key, else `method_missing`, which reads an entry of that name, writes
   * through `[]=` for a name ending in `=`, and otherwise raises.
   */
  function Dispatch(accessorized: seq<string>, s: MockState, name: string, args: seq<Value>): Step {
    if name in accessorized then
      if args != [] then Step(Raised(ArgumentError(name)), s)
      else Step(Returned(Lookup(s.slots, name, Nil)), s)
    else if IsWriterName(name) && name[..|name| - 1] in accessorized then
      if |args| != 1 then Step(Raised(ArgumentError(name)), s)
      else Step(Returned(args[0]), MockState(s.table, s.slots[name[..|name| - 1] := args[0]]))
    else if name in s.table then Step(Returned(s.table[name]), s)
    else if IsWriterName(name) then
      var v := if args == [] then Nil else args[0];
      Step(Returned(v), Stored(accessorized, s, StripEquals(name), v))
    else Step(Raised(NoMethodError(name)), s)
  }

  /** `respond_to?`: an entry of that name, any name ending in `=`, or an accessor. */
  predicate RespondTo(accessorized: seq<string>, s: MockState, name: string) {
    name in s.table || IsWriterName(name) || name in accessorized
  }

  /** A call raises `NoMethodError` exactly when `respond_to?` says no. */
  lemma DispatchRaisesIff(accessorized: seq<string>, s: MockState, name: string, args: seq<Value>)
    ensures Dispatch(accessorized, s, name, args).result == Raised(NoMethodError(name)) <==> !RespondTo(accessorized, s, name)
  {
  }

  /** Calls keep the accessorized keys out of the hash. */
  lemma DispatchKeepsHidden(accessorized: seq<string>, s: MockState, name: string, args: seq<Value>)
    requires Hidden(accessorized, s)
    ensures Hidden(accessorized, Dispatch(accessorized, s, name, args).state)
  {
    if !(name in accessorized) && !(IsWriterName(name) && name[..|name| - 1] in accessorized)
       && name !in s.table && IsWriterName(name) {
      StoredEffect(accessorized, s, StripEquals(name), if args == [] then Nil else args[0]);
    }
  }

  /**
   * The dynamic setter and getter of a plain key agree with each other and
   * with the hash: `m.shown = v` returns `v`, then `m.shown` and `m[:shown]` give `v`.
   */
  lemma DynamicAccessRoundTrip(accessorized: seq<string>, s: MockState, name: string, v: Value)
    requires Hidden(accessorized, s)
    requires name != [] && '=' !in name && name !in accessorized && name + "=" !in s.table
    ensures var set_ := Dispatch(accessorized, s, name + "=", [v]);
      && set_.result == Returned(v)
      && set_.state == MockState(s.table[name := v], s.slots)
      && Dispatch(accessorized, set_.state, name, []).result == Returned(v)
  {
    var w := name + "=";
    assert w[..|w| - 1] == name;
    assert IsWriterName(w);
    assert '=' in w by {
      assert w[|w| - 1] == '=';
    }
    StoredEffect(accessorized, s, name, v);
  }

  /** An accessorized key round-trips through its accessor and never enters the hash. */
  lemma AccessorRoundTrip(accessorized: seq<string>, s: MockState, name: string, v: Value)
    requires Hidden(accessorized, s) && name in accessorized
    ensures var set_ := Dispatch(accessorized, s, name + "=", [v]);
      && set_.result == Returned(v)
      && name !in set_.state.table
      && Dispatch(accessorized, set_.state, name, []).result == Returned(v)
  {
    var w := name + "=";
    assert w[..|w| - 1] == name;
    assert '=' in w by {
      assert w[|w| - 1] == '=';
    }
  }

  /** The generated class, instantiated. */
  class MockHash {
    /** `accessorized_keys`, as strings. */
    const accessorized: seq<string>
    var table: map<string, Value>
    var slots: map<string, Value>

    function State(): MockState
      reads this
    {
      MockState(table, slots)
    }

    ghost predicate Valid()
      reads this
    {
      Hidden(accessorized, State())
    }

    /** `Mock.new(*keys).new(initial)`: copies the hash, then extracts every accessorized key. */
    constructor (keys: seq<string>, initial: map<string, Value>)
      requires forall i :: 0 <= i < |keys| ==> '=' !in keys[i]
      ensures Valid() && accessorized == keys
      ensures State() == ExtractAll(MockState(initial, map k | k in keys :: Nil), keys)
    {
      accessorized := keys;
      table := initial;
      slots := map k | k in keys :: Nil;
      new;
      ExtractAllKeysToAccessors();
      ghost var start := MockState(initial, map k | k in keys :: Nil);
      ExtractAllTable(start, keys);
      forall k
        ensures k in slots <==> k in keys
      {
        ExtractAllSlots(start, keys, k);
      }
    }

    /** `extract_key_to_accessor`. */
    method ExtractKeyToAccessor(key: string)
      modifies this
      ensures State() == ExtractKey(old(State()), key)
    {
      slots := slots[key := Lookup(table, key, Nil)];
      table := table - {key};
    }

    /** `extract_all_keys_to_accessors`. */
    method ExtractAllKeysToAccessors()
      modifies this
      ensures State() == ExtractAll(old(State()), accessorized)
    {
      for i := 0 to |accessorized|
        invariant State() == ExtractAll(old(State()), accessorized[..i])
      {
        assert accessorized[..i + 1][..i] == accessorized[..i];
        ExtractKeyToAccessor(accessorized[i]);
      }
      assert accessorized[..|accessorized|] == accessorized;
    }

    /** `[]=`, which returns the stored value. */
    method Assign(key: Key, value: Value) returns (rv: Value)
      requires Valid()
      modifies this
      ensures Valid()
      ensures rv == value
      ensures State() == Stored(accessorized, old(State()), KeyString(key), value)
    {
      table := table[KeyString(key) := value];
      rv := value;
      if KeyString(key) in accessorized {
        ExtractKeyToAccessor(KeyString(key));
      }
      StoredEffect(accessorized, old(State()), KeyString(key), value);
    }

    /** `[]` with indifferent access. */
    function At(key: Key): (v: Value)
      reads this
      ensures KeyString(key) in table ==> v == table[KeyString(key)]
      ensures KeyString(key) !in table ==> v == Nil
    {
      Lookup(table, KeyString(key), Nil)
    }

    /** A symbol key and a string key of the same name read the same entry. */
    lemma AtIndifferent(name: string)
      ensures At(SymbolKey(name)) == At(StringKey(name))
    {
    }

    /** A method call on the hash: accessor reader, accessor writer, or `method_missing`. */
    method Call(name: string, args: seq<Value>) returns (r: Outcome<Value>)
      requires Valid()
      modifies this
      ensures Valid()
      ensures Step(r, State()) == Dispatch(accessorized, old(State()), name, args)
    {
      DispatchKeepsHidden(accessorized, State(), name, args);
      if name in accessorized {
        if args != [] {
          return Raised(ArgumentError(name));
        }
        return Returned(Lookup(slots, name, Nil));
      } else if IsWriterName(name) && name[..|name| - 1] in accessorized {
        if |args| != 1 {
          return Raised(ArgumentError(name));
        }
        slots := slots[name[..|name| - 1] := args[0]];
        return Returned(args[0]);
      } else if name in table {
        return Returned(table[name]);
      } else if IsWriterName(name) {
        var v := if args == [] then Nil else args[0];
        var _ := Assign(StringKey(StripEquals(name)), v);
        return Returned(v);
      }
      return Raised(NoMethodError(name));
    }
  }

  /** The hash of the tests: `{"hidden" => "foo", "shown" => "bar"}`. */
  const TEST_HASH: map<string, Value> := map["hidden" := Str("foo"), "shown" := Str("bar")]

  /** `Mock.new(:hidden)` over the tests' hash hides `hidden` in its slot and keeps `shown`. */
  lemma TestHashExtracted()
    ensures ExtractAll(MockState(TEST_HASH, map k | k in ["hidden"] :: Nil), ["hidden"])
         == MockState(map["shown" := Str("bar")], map["hidden" := Str("foo")])
  {
    var start := MockState(TEST_HASH, map k | k in ["hidden"] :: Nil);
    ExtractAllTable(start, ["hidden"]);
    assert (set k | k in ["hidden"]) == {"hidden"};
    assert (map k | k in ["hidden"] :: Nil).Keys == {"hidden"};
    assert ["hidden"][..0] == [];
  }

  /** `Mock.new(:hidden).new("hidden" => "foo", "shown" => "bar")` shows only `{"shown" => "bar"}`. */
  method HideScenario() returns (shown: map<string, Value>, hidden: Value)
    ensures shown == map["shown" := Str("bar")]
    ensures hidden == Str("foo")
  {
    var m := new MockHash(["hidden"], TEST_HASH);
    TestHashExtracted();
    shown := m.table;
    hidden := m.slots["hidden"];
  }

  /**
   * Over the tests' hash, `shown = v` returns `v`, after which `shown` and
   * `[:shown]` give `v`, and the hidden slot still holds `"foo"`.
   */
  method ShownScenario(v: Value) returns (setShown: Outcome<Value>, getShown: Outcome<Value>, atShown: Value, hidden: Value)
    ensures setShown == Returned(v) && getShown == Returned(v) && atShown == v
    ensures hidden == Str("foo")
  {
    var m := new MockHash(["hidden"], TEST_HASH);
    TestHashExtracted();
    assert "shown" + "=" == "shown=";
    DynamicAccessRoundTrip(m.accessorized, m.State(), "shown", v);
    setShown := m.Call("shown=", [v]);
    getShown := m.Call("shown", []);
    atShown := m.At(SymbolKey("shown"));
    hidden := m.slots["hidden"];
  }

  /**
   * Over the tests' hash, `hidden = v` returns `v`, after which `hidden`
   * gives `v`; `hidden` stays out of the hash and `[:shown]` still gives `"bar"`.
   */
  method HiddenScenario(v: Value) returns (setHidden: Outcome<Value>, getHidden: Outcome<Value>, shown: map<string, Value>)
    ensures setHidden == Returned(v) && getHidden == Returned(v)
    ensures shown == map["shown" := Str("bar")]
  {
    var m := new MockHash(["hidden"], TEST_HASH);
    TestHashExtracted();
    assert "hidden" + "=" == "hidden=";
    AccessorRoundTrip(m.accessorized, m.State(), "hidden", v);
    setHidden := m.Call("hidden=", [v]);
    getHidden := m.Call("hidden", []);
    shown := m.table;
  }
}
