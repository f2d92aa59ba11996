/**
 * conf/util.go: the process-wide holder of two settings, the working
 * directory and the debug switch, kept in a map of dynamic values under the
 * keys "wd" and "debug". The mutex around the map is not modelled: every
 * operation is one step.
 */
module ConfUtil {
  import opened Go

  /** The keys the holder stores the two settings under. */
  const WdKey: string := "wd"
  const DebugKey: string := "debug"

  class SyncMap {
    var m: map<string, Value>

    /** newSyncMap: an empty map. */
    constructor ()
      ensures m == map[]
    {
      m := map[];
    }

    /** syncMap.Get: the value and true when the key is present, nil and false otherwise. */
    function Get(key: string): (r: (Value, bool))
      reads this
      ensures r.1 <==> key in m
      ensures r.1 ==> r.0 == m[key]
      ensures !r.1 ==> r.0 == Nil
    {
      if key in m then (m[key], true) else (Nil, false)
    }

    /** syncMap.GetBool: the value when it is present and a bool, false and false otherwise. */
    function GetBool(key: string): (r: (bool, bool))
      reads this
      ensures r.1 <==> key in m && m[key].Bool?
      ensures r.1 ==> m[key] == Bool(r.0)
      ensures !r.1 ==> !r.0
    {
      var (val, ok) := Get(key);
      if ok && val.Bool? then (val.b, true) else (false, false)
    }

    /** syncMap.GetString: the value when it is present and a string, "" and false otherwise. */
    function GetString(key: string): (r: (string, bool))
      reads this
      ensures r.1 <==> key in m && m[key].Str?
      ensures r.1 ==> m[key] == Str(r.0)
      ensures !r.1 ==> r.0 == ""
    {
      var (val, ok) := Get(key);
      if ok && val.Str? then (val.s, true) else ("", false)
    }

    /** syncMap.Put: the key now holds val; every other key keeps its value. */
    method Put(key: string, val: Value)
      modifies this
      ensures m == old(m)[key := val]
      ensures Get(key) == (val, true)
      ensures forall k :: k != key ==> Get(k) == old(Get(k))
    {
      m := m[key := val];
    }
  }

  /** SetWorkingDir: the working directory is put under "wd". */
  method SetWorkingDir(holder: SyncMap, dir: string)
    modifies holder
    ensures holder.m == old(holder.m)[WdKey := Str(dir)]
    ensures GetWorkingDir(holder) == (dir, true)
    ensures IsDebugEnable(holder) == old(IsDebugEnable(holder))
  {
    holder.Put(WdKey, Str(dir));
  }

  /** GetWorkingDir: the string under "wd", if one was put there. */
  function GetWorkingDir(holder: SyncMap): (r: (string, bool))
    reads holder
    ensures r.1 <==> WdKey in holder.m && holder.m[WdKey].Str?
    ensures r.1 ==> holder.m[WdKey] == Str(r.0)
  {
    holder.GetString(WdKey)
  }

  /** EnableDebug: the debug switch is put under "debug". */
  method EnableDebug(holder: SyncMap, val: bool)
    modifies holder
    ensures holder.m == old(holder.m)[DebugKey := Bool(val)]
    ensures IsDebugEnable(holder) == (val, true)
    ensures GetWorkingDir(holder) == old(GetWorkingDir(holder))
  {
    holder.Put(DebugKey, Bool(val));
  }

  /** IsDebugEnable: the bool under "debug", if one was put there. */
  function IsDebugEnable(holder: SyncMap): (r: (bool, bool))
    reads holder
    ensures r.1 <==> DebugKey in holder.m && holder.m[DebugKey].Bool?
    ensures r.1 ==> holder.m[DebugKey] == Bool(r.0)
  {
    holder.GetBool(DebugKey)
  }

  /**
   * The two settings live under different keys: setting the working
   * directory reads back and leaves the debug switch as it was, and the
   * other way round.
   */
  method SettingsIndependentScenario(holder: SyncMap, dir: string, val: bool) returns (wd: (string, bool), dbg: (bool, bool))
    modifies holder
    ensures wd == (dir, true) && dbg == (val, true)
  {
    SetWorkingDir(holder, dir);
    EnableDebug(holder, val);
    wd := GetWorkingDir(holder);
    dbg := IsDebugEnable(holder);
  }
}
