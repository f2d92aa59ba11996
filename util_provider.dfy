/**
 * util/provider.go: a registry of supplier functions keyed by dynamic
 * values (int(1) and int64(1) are different keys).
 */
module UtilProvider {
  import opened Wrappers
  import opened Go

  /** A supplier: a function producing a fresh value. */
  type Supplier = () -> Value

  /**
   * MustRegister on the map: the keys are inserted in order, and the first
   * key already present, earlier in the same call included, stops the
   * registration (Go panics there). The keys before it stay registered.
   * Every key must be hashable: Go's map panics on a slice key.
   */
  function RegisterSpec(m: map<Value, Supplier>, supplier: Supplier, keys: seq<Value>): (r: (map<Value, Supplier>, Option<Value>))
    requires forall k :: k in keys ==> Hashable(k)
    ensures r.1.None? ==> forall k :: k in r.0 <==> k in m || k in keys
    ensures r.1.None? ==> forall i :: 0 <= i < |keys| ==> keys[i] !in m
    ensures r.1.Some? ==> r.1.value in keys && r.1.value in r.0
    ensures forall k :: k in m ==> k in r.0 && r.0[k] == m[k]
    ensures forall k :: k in r.0 && k !in m ==> r.0[k] == supplier && k in keys
    decreases |keys|
  {
    if keys == [] then (m, None)
    else if keys[0] in m then (m, Some(keys[0]))
    else
      var r := RegisterSpec(m[keys[0] := supplier], supplier, keys[1..]);
      assert forall k :: k in keys[1..] ==> k in keys;
      r
  }

  /** The keys before the clashing one are registered, with the supplier. */
  lemma {:induction false} RegisterPrefix(m: map<Value, Supplier>, supplier: Supplier, keys: seq<Value>, i: nat)
    requires i <= |keys| && forall k :: k in keys ==> Hashable(k)
    requires forall j :: 0 <= j < i ==> keys[j] !in m && keys[j] !in keys[..j]
    ensures forall j :: 0 <= j < i ==> keys[j] in RegisterSpec(m, supplier, keys).0
    decreases |keys|
  {
    if i > 0 {
      var m' := m[keys[0] := supplier];
      forall j | 0 <= j < i - 1 ensures keys[1..][j] !in m' && keys[1..][j] !in keys[1..][..j] {
        assert keys[1..][j] == keys[j + 1];
        assert keys[..j + 1] == [keys[0]] + keys[1..][..j];
      }
      RegisterPrefix(m', supplier, keys[1..], i - 1);
      forall j | 0 < j < i ensures keys[j] in RegisterSpec(m, supplier, keys).0 {
        assert keys[j] == keys[1..][j - 1];
      }
    }
  }

  /** util.Provider */
  class Provider {
    var suppliers: map<Value, Supplier>

    /** util.NewProvider */
    constructor ()
      ensures suppliers == map[]
    {
      suppliers := map[];
    }

    /**
     * Provider.MustRegister. Returns the key that made Go panic, if any,
     * with the suppliers registered up to it.
     */
    method MustRegister(supplier: Supplier, keys: seq<Value>) returns (clash: Option<Value>)
      requires |keys| > 0 && forall k :: k in keys ==> Hashable(k)
      modifies this
      ensures (suppliers, clash) == RegisterSpec(old(suppliers), supplier, keys)
    {
      var i := 0;
      while i < |keys|
        invariant 0 <= i <= |keys|
        invariant RegisterSpec(old(suppliers), supplier, keys) == RegisterSpec(suppliers, supplier, keys[i..])
      {
        if keys[i] in suppliers {
          assert keys[i..][0] == keys[i];
          return Some(keys[i]);
        }
        assert keys[i..][1..] == keys[i + 1..];
        suppliers := suppliers[keys[i] := supplier];
        i := i + 1;
      }
      assert keys[i..] == [];
      return None;
    }

    /** Provider.HasSupplier: a key without a supplier gets nil from Get. */
    predicate HasSupplier(key: Value)
      requires Hashable(key)
      reads this
      ensures !HasSupplier(key) ==> Get(key) == Nil
    {
      key in suppliers
    }

    /** Provider.Get: the registered supplier's value, or nil. */
    function Get(key: Value): (v: Value)
      requires Hashable(key)
      reads this
      ensures key !in suppliers ==> v == Nil
      ensures key in suppliers ==> v == suppliers[key]()
    {
      if key in suppliers then suppliers[key]() else Nil
    }
  }

  /**
   * A registration without a clash makes every key available, each giving
   * the one supplier's value, and changes no earlier registration.
   */
  lemma RegisteredKeysGet(m: map<Value, Supplier>, supplier: Supplier, keys: seq<Value>)
    requires forall k :: k in keys ==> Hashable(k)
    requires RegisterSpec(m, supplier, keys).1.None?
    ensures var m' := RegisterSpec(m, supplier, keys).0;
      (forall i :: 0 <= i < |keys| ==> keys[i] in m' && m'[keys[i]]() == supplier()) &&
      (forall k :: k in m ==> m'[k] == m[k])
  {
  }

  /** Registering a key twice, in one call or two, is reported as a clash. */
  lemma {:induction false} DuplicateKeyClashes(m: map<Value, Supplier>, supplier: Supplier, keys: seq<Value>, i: nat, j: nat)
    requires i < j < |keys| && keys[i] == keys[j]
    requires forall k :: k in keys ==> Hashable(k)
    ensures RegisterSpec(m, supplier, keys).1.Some?
    decreases |keys|
  {
    if keys[0] !in m {
      if i == 0 {
        RegisterHas(m[keys[0] := supplier], supplier, keys[1..], j - 1);
      } else {
        DuplicateKeyClashes(m[keys[0] := supplier], supplier, keys[1..], i - 1, j - 1);
      }
    }
  }

  lemma RegisterHas(m: map<Value, Supplier>, supplier: Supplier, keys: seq<Value>, j: nat)
    requires j < |keys| && keys[j] in m
    requires forall k :: k in keys ==> Hashable(k)
    ensures RegisterSpec(m, supplier, keys).1.Some?
  {
  }
}
