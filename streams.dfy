/**
 * A state stream: one of the four module-level Python dicts
 * (`stopStateStream`, `pushStateStream`, `youStateStream`,
 * `winStateStream`) from a block type name to a bool. Python dicts keep
 * insertion order and `endow` iterates over one, so the order of the
 * keys is part of the value.
 */
module Streams {

  ghost predicate Unique(keys: seq<string>) {
    forall i, j :: 0 <= i < j < |keys| ==> keys[i] != keys[j]
  }

  datatype Stream = Stream(keys: seq<string>, flags: map<string, bool>) {

    /** The order lists every key exactly once. */
    ghost predicate Wf() {
      && Unique(keys)
      && (forall k :: k in flags <==> k in keys)
    }

    /** `stream[k] = v`: an existing key keeps its place, a new one goes last. */
    function Put(k: string, v: bool): (r: Stream)
      requires Wf()
      ensures r.Wf()
      ensures r.flags == flags[k := v]
      ensures k in keys ==> r.keys == keys
      ensures k !in keys ==> r.keys == keys + [k]
    {
      Stream(if k in flags then keys else keys + [k], flags[k := v])
    }
  }

  /**
   * The key order after assigning `names` one after the other into a
   * dict whose keys were `keys`.
   */
  function AddKeys(keys: seq<string>, names: seq<string>): (r: seq<string>)
    ensures forall k :: k in r <==> k in keys || k in names
    ensures Unique(keys) ==> Unique(r)
    ensures |keys| <= |r| && r[..|keys|] == keys
    decreases |names|
  {
    if names == [] then
      keys
    else
      var prev := AddKeys(keys, names[..|names| - 1]);
      var name := names[|names| - 1];
      assert forall k :: k in names <==> k in names[..|names| - 1] || k == name;
      if name in prev then prev else prev + [name]
  }

  /** Names that are all keys already add nothing to the order. */
  lemma {:induction false} AddKeysPresent(keys: seq<string>, names: seq<string>)
    requires forall k :: k in names ==> k in keys
    ensures AddKeys(keys, names) == keys
    decreases |names|
  {
    if names != [] {
      AddKeysPresent(keys, names[..|names| - 1]);
    }
  }

  /** Assigning the same names a second time leaves the order as it is. */
  lemma AddKeysIdempotent(keys: seq<string>, names: seq<string>)
    ensures AddKeys(AddKeys(keys, names), names) == AddKeys(keys, names)
  {
    AddKeysPresent(AddKeys(keys, names), names);
  }
}
