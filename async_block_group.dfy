/**
 * async/block_group.go: a map from keys to result holders, so that a
 * goroutine can wait in Get for a value another goroutine will Put. The
 * holders' WaitGroups are not modelled; a Get that would wait is reported as
 * such instead.
 */
module AsyncBlockGroup {
  import opened Wrappers
  import opened Go
  import UString

  /** *blockResultHolder: whether a result was put, and the last one put (nil at first). */
  datatype Holder = Holder(hasResult: bool, result: Value)

  /** newBlockResultHolder */
  const NewHolder := Holder(false, Nil)

  /** blockResultHolder.Put: stores the result; hasResult turns true on the first Put and stays true. */
  function HolderPut(h: Holder, result: Value): (h': Holder)
    ensures h'.hasResult && h'.result == result
    ensures h.hasResult ==> h' == h.(result := result)
  {
    Holder(true, result)
  }

  class BlockGroup {
    var holders: map<string, Holder>

    /** async.NewBlockGroup */
    constructor ()
      ensures holders == map[]
    {
      holders := map[];
    }

    /** BlockGroup.Has: false for a blank key. */
    predicate Has(key: string)
      reads this
      ensures Has(key) <==> !UString.Empty(key) && key in holders
    {
      if UString.Empty(key) then false else key in holders
    }

    /** BlockGroup.Peek: the holder's last result, nil when blank or absent; it never inserts. */
    function Peek(key: string): (v: Value)
      reads this
      ensures Has(key) ==> v == holders[key].result
      ensures !Has(key) ==> v == Nil
    {
      if UString.Empty(key) then Nil
      else if key in holders then holders[key].result
      else Nil
    }

    /**
     * BlockGroup.Get: a blank key gives nil. A key without a holder gets an
     * empty one, so that a later Put can wake the caller. The answer is the
     * holder's result when it has one, and None when the caller would wait.
     */
    method Get(key: string) returns (v: Option<Value>)
      modifies this
      ensures UString.Empty(key) ==> v == Some(Nil) && holders == old(holders)
      ensures !UString.Empty(key) && key in old(holders) ==> holders == old(holders)
      ensures !UString.Empty(key) && key !in old(holders) ==> holders == old(holders)[key := NewHolder]
      ensures !UString.Empty(key) ==> key in holders
      ensures !UString.Empty(key) ==> (v.Some? <==> holders[key].hasResult)
      ensures !UString.Empty(key) && v.Some? ==> v.value == holders[key].result
    {
      if UString.Empty(key) {
        return Some(Nil);
      }
      if key !in holders {
        holders := holders[key := NewHolder];
      }
      var holder := holders[key];
      if holder.hasResult {
        return Some(holder.result);
      }
      return None;
    }

    /** BlockGroup.Put: the key must not be blank; the key's holder (new if absent) gets the value. */
    method Put(key: string, val: Value)
      requires !UString.Empty(key)
      modifies this
      ensures key in old(holders) ==> holders == old(holders)[key := HolderPut(old(holders)[key], val)]
      ensures key !in old(holders) ==> holders == old(holders)[key := HolderPut(NewHolder, val)]
      ensures Has(key) && Peek(key) == val
    {
      if key in holders {
        holders := holders[key := HolderPut(holders[key], val)];
      } else {
        holders := holders[key := HolderPut(NewHolder, val)];
      }
    }

    /** BlockGroup.PutIfExist: puts the value only into an existing holder, and says whether it did. */
    method PutIfExist(key: string, val: Value) returns (ok: bool)
      modifies this
      ensures ok <==> old(Has(key))
      ensures ok ==> holders == old(holders)[key := HolderPut(old(holders)[key], val)]
      ensures !ok ==> holders == old(holders)
    {
      if UString.Empty(key) {
        return false;
      }
      if key in holders {
        holders := holders[key := HolderPut(holders[key], val)];
        return true;
      }
      return false;
    }

    /** BlockGroup.Remove: deletes the key's holder and returns its last result; nil when blank or absent. */
    method Remove(key: string) returns (v: Value)
      modifies this
      ensures v == old(Peek(key))
      ensures old(Has(key)) ==> holders == old(holders) - {key}
      ensures !old(Has(key)) ==> holders == old(holders)
      ensures !Has(key)
    {
      if UString.Empty(key) {
        return Nil;
      }
      if key in holders {
        v := holders[key].result;
        holders := holders - {key};
        return;
      }
      return Nil;
    }

    /** BlockGroup.RemoveAll: drops every holder (waking their waiters, which is not modelled). */
    method RemoveAll()
      modifies this
      ensures holders == map[]
    {
      if |holders| == 0 {
        return;
      }
      holders := map[];
    }
  }

  /**
   * The block group's own test, run sequentially: PutIfExist on an absent
   * key inserts nothing, a Put then makes PutIfExist succeed, and Get
   * returns the value put last.
   */
  method PutIfExistScenario(key: string) returns (g: BlockGroup)
    requires !UString.Empty(key)
    ensures fresh(g) && g.Has(key)
  {
    g := new BlockGroup();
    var ok := g.PutIfExist(key, Int(1));
    assert !ok && g.holders == map[];
    g.Put(key, Int(1));
    ok := g.PutIfExist(key, Int(2));
    assert ok;
    var v := g.Get(key);
    assert v == Some(Int(2));
  }
}
