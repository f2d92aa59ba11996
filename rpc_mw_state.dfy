/**
 * rpc/mw_state.go: BaseState, a map of request-scoped values, and the
 * middleware that puts one into a request's context so that every later
 * interceptor of the chain sees the same State. The gRPC interceptors around
 * handle only call it and pass the context on; they are not modelled.
 */
module RpcMwState {
  import opened Wrappers
  import opened Go

  class BaseState {
    var m: map<Value, Value>

    /** rpc.NewState: NewStateOf(nil), an empty state. */
    constructor ()
      ensures m == map[]
    {
      m := map[];
    }

    /** rpc.NewStateOf: a copy of vals made entry by entry, so later changes to vals do not reach the state. */
    constructor Of(vals: map<Value, Value>)
      ensures m == vals
    {
      var nm: map<Value, Value> := map[];
      var rest := vals.Keys;
      while rest != {}
        invariant rest <= vals.Keys && nm.Keys == vals.Keys - rest
        invariant forall k :: k in nm ==> nm[k] == vals[k]
        decreases rest
      {
        var k :| k in rest;
        nm := nm[k := vals[k]];
        rest := rest - {k};
      }
      assert vals.Keys - rest == vals.Keys;
      m := nm;
    }

    /** BaseState.Put */
    method Put(key: Value, val: Value)
      modifies this
      ensures m == old(m)[key := val]
      ensures Has(key) && Get(key) == (val, true)
    {
      m := m[key := val];
    }

    /** BaseState.Del: removes a present key; an absent key changes nothing. */
    method Del(key: Value)
      modifies this
      ensures m == old(m) - {key}
      ensures key !in old(m) ==> m == old(m)
    {
      if key in m {
        m := m - {key};
      }
    }

    /** BaseState.Clear: a fresh empty map. */
    method Clear()
      modifies this
      ensures m == map[]
    {
      m := map[];
    }

    /** BaseState.ToMap: a copy made entry by entry, equal to the contents. */
    method ToMap() returns (copy: map<Value, Value>)
      ensures copy == m
    {
      copy := map[];
      var rest := m.Keys;
      while rest != {}
        invariant rest <= m.Keys && copy.Keys == m.Keys - rest
        invariant forall k :: k in copy ==> copy[k] == m[k]
        decreases rest
      {
        var k :| k in rest;
        copy := copy[k := m[k]];
        rest := rest - {k};
      }
      assert m.Keys - rest == m.Keys;
    }

    /** BaseState.Has: exactly the ok that Get reports, with nil as the value of a missing key. */
    predicate Has(key: Value)
      reads this
      ensures Has(key) <==> Get(key).1
      ensures !Has(key) ==> Get(key).0 == Nil
    {
      key in m
    }

    /** BaseState.Get: the value and true when present, nil and false otherwise. */
    function Get(key: Value): (r: (Value, bool))
      reads this
      ensures r.1 <==> key in m
      ensures r.1 ==> r.0 == m[key]
      ensures !r.1 ==> r.0 == Nil
    {
      if key in m then (m[key], true) else (Nil, false)
    }

    /** BaseState.MustInt: the value must be stored as a Go int (an absent key holds nil and panics too). */
    function MustInt(key: Value): (i: int)
      reads this
      requires Get(key).0.Int?
      ensures Has(key) && m[key] == Int(i)
    {
      m[key].i
    }

    /** BaseState.MustInt64: the value must be stored as an int64. */
    function MustInt64(key: Value): (i: int)
      reads this
      requires Get(key).0.Int64?
      ensures Has(key) && m[key] == Int64(i)
    {
      m[key].i
    }

    /** BaseState.MustString: the value must be stored as a string. */
    function MustString(key: Value): (s: string)
      reads this
      requires Get(key).0.Str?
      ensures Has(key) && m[key] == Str(s)
    {
      m[key].s
    }
  }

  /** The part of a context.Context the middleware uses: the State stored under ctxKeyState, if any. */
  datatype Ctx = Ctx(state: Option<BaseState>)

  /** A MWStateOnRequest callback: what it returns for a context, the State and the method name. */
  type OnRequest = (Ctx, BaseState, string) -> Option<Error>

  class MWState {
    const state: BaseState

    /** rpc.NewMWStateOf: the State every request without one gets. */
    constructor (state: BaseState)
      ensures this.state == state
    {
      this.state := state;
    }

    /**
     * MWState.handle: a State already in the context is used as it is;
     * otherwise this middleware's State is put into the context. The callback
     * runs on that context and State, and its error is handle's error.
     */
    function Handle(ctx: Ctx, name: string, onRequest: OnRequest): (r: (Ctx, Option<Error>))
      ensures ctx.state.Some? ==> r.0 == ctx
      ensures ctx.state.None? ==> r.0 == Ctx(Some(state))
      ensures r.0.state.Some? && r.1 == onRequest(r.0, r.0.state.value, name)
    {
      var ctx' := if ctx.state.None? then Ctx(Some(state)) else ctx;
      (ctx', onRequest(ctx', ctx'.state.value, name))
    }
  }

  /**
   * Two middlewares in a chain share the first one's State: the second sees
   * the State the first installed, not its own.
   */
  lemma ChainSharesState(mw1: MWState, mw2: MWState, ctx: Ctx, name: string, f1: OnRequest, f2: OnRequest)
    requires ctx.state.None?
    ensures var ctx1 := mw1.Handle(ctx, name, f1).0;
      && ctx1.state == Some(mw1.state)
      && mw2.Handle(ctx1, name, f2).0 == ctx1
  {
  }

  /**
   * Two middlewares in sequence: a value put into the State the first one
   * installed in the context is read back, with MustInt, through the State
   * the second one passes on. The puts are made between the two handle
   * calls, where the first callback would make them.
   */
  method ChainScenario(name: string) returns (seen: int)
    ensures seen == 1
  {
    var s1 := new BaseState();
    var s2 := new BaseState();
    var mw1 := new MWState(s1);
    var mw2 := new MWState(s2);
    var ctx1 := mw1.Handle(Ctx(None), name, (c, st, n) => None).0;
    var st1 := ctx1.state.value;
    st1.Put(Int(1), Int(1));
    st1.Put(Str("method"), Str(name));
    var ctx2 := mw2.Handle(ctx1, name, (c, st, n) => None).0;
    var st2 := ctx2.state.value;
    assert st2 == s1;
    seen := st2.MustInt(Int(1));
  }
}
