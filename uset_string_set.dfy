/**
 * _set/string_set.go: a set of strings kept as the key set of a Go map. A nil
 * *StringSet answers Size and Empty (and Equal, through them); the other
 * methods dereference their receiver. The `other` set of Union, Diff,
 * Intersect, NewDiff and ContainsSet may be nil, and may be the receiver
 * itself.
 */
module USetStringSet {

  class StringSet {
    /** The keys of the map m. */
    var m: set<string>

    /** _set.NewStringSet: the items, added one by one; repeated items are kept once. */
    constructor (items: seq<string>)
      ensures forall x :: x in m <==> x in items
    {
      var nm: set<string> := {};
      for i := 0 to |items|
        invariant forall x :: x in nm <==> x in items[..i]
      {
        nm := nm + {items[i]};
      }
      m := nm;
    }

    /** StringSet.Contains: item was added; a set that contains anything is not Empty. */
    predicate Contains(item: string)
      reads this
      ensures Contains(item) ==> !Empty(this)
    {
      item in m
    }

    /** StringSet.ContainsAll: every item is in the set; the first missing one stops the loop. */
    method ContainsAll(items: seq<string>) returns (ok: bool)
      ensures ok <==> forall i :: 0 <= i < |items| ==> items[i] in m
    {
      for i := 0 to |items|
        invariant forall j :: 0 <= j < i ==> items[j] in m
      {
        if items[i] !in m {
          return false;
        }
      }
      return true;
    }

    /** StringSet.ContainsSet: a nil or empty other is contained; otherwise every element of other is in the set. */
    method ContainsSet(other: StringSet?) returns (ok: bool)
      ensures ok <==> Elems(other) <= m
    {
      if other == null || Size(other) == 0 {
        return true;
      }
      var rest := other.m;
      while rest != {}
        invariant rest <= other.m && other.m - rest <= m
        decreases rest
      {
        var k :| k in rest;
        if k !in m {
          return false;
        }
        rest := rest - {k};
      }
      return true;
    }

    /** StringSet.Add */
    method Add(item: string)
      modifies this
      ensures m == old(m) + {item}
    {
      m := m + {item};
    }

    /** StringSet.AddAll: the items, one by one. */
    method AddAll(items: seq<string>)
      modifies this
      ensures forall x :: x in m <==> x in old(m) || x in items
    {
      for i := 0 to |items|
        invariant forall x :: x in m <==> x in old(m) || x in items[..i]
      {
        m := m + {items[i]};
      }
    }

    /** StringSet.Remove: true iff the item was there; afterwards it is not. */
    method Remove(item: string) returns (ok: bool)
      modifies this
      ensures ok <==> item in old(m)
      ensures m == old(m) - {item}
    {
      if item !in m {
        return false;
      }
      m := m - {item};
      return true;
    }

    /** StringSet.RemoveAll: the items, one by one. */
    method RemoveAll(items: seq<string>)
      modifies this
      ensures forall x :: x in m <==> x in old(m) && x !in items
    {
      for i := 0 to |items|
        invariant forall x :: x in m <==> x in old(m) && x !in items[..i]
      {
        m := m - {items[i]};
      }
    }

    /** StringSet.Clear: a fresh empty map. */
    method Clear()
      modifies this
      ensures m == {}
    {
      m := {};
    }

    /** StringSet.Clone: a new set with its own map, copied key by key. */
    method Clone() returns (c: StringSet)
      ensures fresh(c) && c.m == m
    {
      var nm: set<string> := {};
      var rest := m;
      while rest != {}
        invariant rest <= m && nm == m - rest
        decreases rest
      {
        var k :| k in rest;
        nm := nm + {k};
        rest := rest - {k};
      }
      c := new StringSet([]);
      c.m := nm;
    }

    /**
     * StringSet.Pop: n < 1 takes nothing. When the set has at most n
     * elements the result takes them all and the set is left empty.
     * Otherwise exactly n elements, in map order, move from the set to the
     * result.
     */
    method Pop(n: int) returns (s: StringSet)
      modifies this
      ensures fresh(s)
      ensures n < 1 ==> s.m == {} && m == old(m)
      ensures 1 <= n && |old(m)| <= n ==> s.m == old(m) && m == {}
      ensures n >= 1 ==> |s.m| == if |old(m)| <= n then |old(m)| else n
      ensures s.m + m == old(m) && s.m !! m
    {
      if n < 1 {
        s := new StringSet([]);
        return;
      }
      if |m| <= n {
        s := new StringSet([]);
        s.m := m;
        m := {};
        return;
      }
      var taken, left := Take(m, n);
      m := left;
      s := new StringSet([]);
      s.m := taken;
    }

    /** StringSet.Union: rewrites the set to the union and returns it. */
    method Union(other: StringSet?) returns (r: StringSet)
      modifies this
      ensures r == this && m == old(m) + old(Elems(other))
    {
      if other == null || |other.m| == 0 {
        return this;
      }
      var om := other.m;
      var rest := om;
      while rest != {}
        invariant rest <= om && m == old(m) + (om - rest)
        decreases rest
      {
        var k :| k in rest;
        m := m + {k};
        rest := rest - {k};
      }
      return this;
    }

    /** StringSet.Diff: rewrites the set to the difference and returns it. */
    method Diff(other: StringSet?) returns (r: StringSet)
      modifies this
      ensures r == this && m == old(m) - old(Elems(other))
    {
      if other == null || |other.m| == 0 {
        return this;
      }
      var om := other.m;
      var rest := om;
      while rest != {}
        invariant rest <= om && m == old(m) - (om - rest)
        decreases rest
      {
        var k :| k in rest;
        m := m - {k};
        rest := rest - {k};
      }
      return this;
    }

    /** StringSet.NewDiff: the difference as a new set; this set is unchanged. */
    method NewDiff(other: StringSet?) returns (s: StringSet)
      ensures fresh(s) && s.m == m - Elems(other)
    {
      if other == null || |other.m| == 0 {
        s := Clone();
        return;
      }
      s := new StringSet([]);
      var rest := m;
      while rest != {}
        invariant rest <= m && s.m == (m - rest) - other.m
        decreases rest
      {
        var k :| k in rest;
        if k !in other.m {
          s.Add(k);
        }
        rest := rest - {k};
      }
    }

    /** StringSet.Intersect: a nil or empty other empties the set; otherwise it keeps the common elements. */
    method Intersect(other: StringSet?) returns (r: StringSet)
      modifies this
      ensures r == this && m == old(m) * old(Elems(other))
    {
      if other == null || |other.m| == 0 {
        m := {};
        return this;
      }
      var nm: set<string> := {};
      var rest := m;
      while rest != {}
        invariant rest <= m && nm == (m - rest) * other.m
        decreases rest
      {
        var k :| k in rest;
        if k in other.m {
          nm := nm + {k};
        }
        rest := rest - {k};
      }
      m := nm;
      return this;
    }
  }

  /** The loop of StringSet.Pop: n elements, in map order, move from the map to the result. */
  method Take(from: set<string>, n: nat) returns (taken: set<string>, left: set<string>)
    requires n <= |from|
    ensures |taken| == n && taken + left == from && taken !! left
  {
    taken, left := {}, from;
    var i := 0;
    while i < n
      invariant 0 <= i <= n && |taken| == i
      invariant taken + left == from && taken !! left && |left| == |from| - i
      decreases n - i
    {
      var k :| k in left;
      taken := taken + {k};
      left := left - {k};
      i := i + 1;
    }
  }

  /** The elements of a possibly nil set. */
  function Elems(h: StringSet?): set<string>
    reads h
  {
    if h == null then {} else h.m
  }

  /** StringSet.Size: 0 for a nil set. */
  function Size(h: StringSet?): (n: int)
    reads h
    ensures n == |Elems(h)|
  {
    if h == null then 0 else |h.m|
  }

  /** StringSet.Empty: true for a nil set. */
  predicate Empty(h: StringSet?)
    reads h
    ensures Empty(h) <==> Elems(h) == {}
  {
    if h == null then true else |h.m| == 0
  }

  /**
   * StringSet.Equal: the same size, then every element of h in other. Nil
   * sets count as empty.
   */
  method Equal(h: StringSet?, other: StringSet?) returns (eq: bool)
    ensures eq <==> Elems(h) == Elems(other)
  {
    if Size(h) != Size(other) {
      return false;
    }
    if Empty(h) && Empty(other) {
      return true;
    }
    var rest := h.m;
    while rest != {}
      invariant rest <= h.m && h.m - rest <= other.m
      decreases rest
    {
      var k :| k in rest;
      if k !in other.m {
        return false;
      }
      rest := rest - {k};
    }
    SameSizeSubset(h.m, other.m);
    return true;
  }

  /** A subset as large as its superset is the superset. */
  lemma SameSizeSubset(a: set<string>, b: set<string>)
    requires a <= b && |a| == |b|
    ensures a == b
  {
    assert |b - a| == |b| - |a|;
  }
}
