/**
 * conf/cfg.go: how Load finds a configuration file and how the settings it
 * reads are bound to environment variables. A setting whose text is
 * "${NAME}" or "${NAME:default}" is bound to the variable NAME, or set to
 * the default when NAME is not in the environment. Reading the file,
 * unmarshalling it into dst and making the directory absolute are viper's
 * and the file system's work and are not modelled; the environment is a
 * parameter.
 */
module ConfCfg {
  import opened Wrappers
  import opened Go
  import Text

  /** The environment variables Load consults. */
  const ConfEnvVar: string := "BGO_CONF_ENV"
  const ConfDirVar: string := "BGO_CONF_DIR"

  /** The directory used when neither the argument nor BGO_CONF_DIR names one. */
  const DefaultConfDir: string := "./conf"

  /** The process environment: the variables that are set, and their values. */
  type Env = map<string, string>

  /** os.Getenv: the value of a variable, "" when it is not set. */
  function Getenv(env: Env, name: string): string {
    if name in env then env[name] else ""
  }

  // ---------------------------------------------------------------------
  // parseEnv and the pattern ^\${([0-9A-Za-z_-]+)(:.*)*}$
  // ---------------------------------------------------------------------

  /** A character of the class [0-9A-Za-z_-]. */
  predicate IsNameChar(c: char) {
    '0' <= c <= '9' || 'A' <= c <= 'Z' || 'a' <= c <= 'z' || c == '_' || c == '-'
  }

  /** A text the group ([0-9A-Za-z_-]+) matches. */
  predicate IsName(s: string) {
    s != [] && forall i :: 0 <= i < |s| ==> IsNameChar(s[i])
  }

  /** The length of the longest run of name characters at the start of s. */
  function NameLen(s: string): (n: nat)
    ensures n <= |s|
    ensures forall i :: 0 <= i < n ==> IsNameChar(s[i])
    ensures n < |s| ==> !IsNameChar(s[n])
  {
    if s != [] && IsNameChar(s[0]) then 1 + NameLen(s[1..]) else 0
  }

  /** A run of name characters followed by nothing or by a non-name character is the whole run. */
  lemma {:induction false} NameLenOf(name: string, rest: string)
    requires forall i :: 0 <= i < |name| ==> IsNameChar(name[i])
    requires rest == [] || !IsNameChar(rest[0])
    ensures NameLen(name + rest) == |name|
  {
    if name != [] {
      assert (name + rest)[1..] == name[1..] + rest;
      NameLenOf(name[1..], rest);
    }
  }

  /**
   * parseEnv: the name and the default of a "${NAME}" or "${NAME:default}"
   * placeholder, or ("", "") for any other text. The pattern anchors both
   * ends; the greedy ([0-9A-Za-z_-]+) takes every name character after
   * "${", so what follows it up to the final "}" must be empty or a ":" and
   * the default, which (:.*)* captures whole, as "." matches any character
   * except a line feed. The colon is dropped from the default.
   */
  function ParseEnv(v: string): (r: (string, string))
    ensures r.0 == "" ==> r.1 == ""
    ensures r.0 != "" ==> IsName(r.0) && '\n' !in r.1
    ensures r.0 != "" ==> v == "${" + r.0 + "}" || v == "${" + r.0 + ":" + r.1 + "}"
  {
    if |v| < 3 || v[..2] != "${" || v[|v| - 1] != '}' then ("", "")
    else
      var body := v[2..|v| - 1];
      var n := NameLen(body);
      var rest := body[n..];
      assert v == "${" + body[..n] + rest + "}";
      if n == 0 then ("", "")
      else if rest == "" then (body[..n], "")
      else if rest[0] != ':' || '\n' in rest then ("", "")
      else
        assert rest == ":" + rest[1..];
        (body[..n], rest[1..])
  }

  /** parseEnv("${NAME}") is NAME with an empty default. */
  lemma ParseEnvName(name: string)
    requires IsName(name)
    ensures ParseEnv("${" + name + "}") == (name, "")
  {
    var v := "${" + name + "}";
    assert v[2..|v| - 1] == name + "";
    NameLenOf(name, "");
  }

  /**
   * parseEnv("${NAME:default}") is NAME and the default without its colon.
   * The default may hold ":" and "}" but no line feed.
   */
  lemma ParseEnvDefault(name: string, dflt: string)
    requires IsName(name) && '\n' !in dflt
    ensures ParseEnv("${" + name + ":" + dflt + "}") == (name, dflt)
  {
    var v := "${" + name + ":" + dflt + "}";
    var rest := ":" + dflt;
    assert v[2..|v| - 1] == name + rest;
    NameLenOf(name, rest);
    assert (name + rest)[|name|..] == rest;
  }

  // ---------------------------------------------------------------------
  // Load: the argument checks and where the file is looked for
  // ---------------------------------------------------------------------

  /** path/filepath.Base without the trailing slashes: what follows the last "/". */
  function TrimTrailingSlashes(p: string): (q: string)
    ensures |q| <= |p| && q == p[..|q|]
    ensures q == [] || q[|q| - 1] != '/'
    ensures forall i :: |q| <= i < |p| ==> p[i] == '/'
  {
    if p != [] && p[|p| - 1] == '/' then TrimTrailingSlashes(p[..|p| - 1]) else p
  }

  /**
   * path/filepath.Base on a system whose separator is "/": "." for an empty
   * path, "/" for a path of slashes only, else the last element once
   * trailing slashes are dropped.
   */
  function Base(p: string): (b: string)
    ensures b != []
    ensures b == "/" || '/' !in b
  {
    if p == [] then "."
    else
      var q := TrimTrailingSlashes(p);
      if q == [] then "/" else q[Text.LastIndex(q, '/') + 1..]
  }

  /** path/filepath.Ext: the suffix from the last "." of the last element, or "" when it has none. */
  function Ext(p: string): (e: string)
    ensures |e| <= |p| && p[|p| - |e|..] == e
    ensures e == [] || (e[0] == '.' && '.' !in e[1..] && '/' !in e)
  {
    var dot := Text.LastIndex(p, '.');
    var slash := Text.LastIndex(p, '/');
    if dot > slash then
      assert p[dot..][1..] == p[dot + 1..];
      assert '/' !in p[slash + 1..];
      assert p[dot..] == p[slash + 1..][dot - slash - 1..];
      p[dot..]
    else ""
  }

  /**
   * path/filepath.Dir on a system whose separator is "/": everything up to
   * the last "/", made clean by `clean` (path/filepath.Clean, not modelled).
   */
  function Dir(p: string, clean: string -> string): string {
    clean(p[..Text.LastIndex(p, '/') + 1])
  }

  /** Where Load looks for the configuration: a directory and a file name without extension. */
  datatype ConfFile = ConfFile(dir: string, name: string)

  /** A name with its extension cut off: what comes before Ext. */
  function Stem(name: string): (s: string)
    ensures s + Ext(name) == name
  {
    name[..|name| - |Ext(name)|]
  }

  /**
   * The file name Load asks for: the base name without its extension, then
   * "." and BGO_CONF_ENV when that is set.
   */
  function FileName(file: string, env: Env): (r: string)
    ensures var stem := Stem(Base(file)); var suffix := Getenv(env, ConfEnvVar);
      && stem <= r
      && (suffix == "" ==> r == stem)
      && (suffix != "" ==> r[|stem|..] == "." + suffix)
  {
    var stem := Stem(Base(file));
    var suffix := Getenv(env, ConfEnvVar);
    if suffix == "" then stem
    else
      Suffixed(stem, suffix);
      stem + "." + suffix
  }

  lemma Suffixed(stem: string, suffix: string)
    ensures var r := stem + "." + suffix; stem <= r && r[|stem|..] == "." + suffix
  {
    var r := stem + "." + suffix;
    assert r[..|stem|] == stem;
  }

  /**
   * The directory Load looks in: the argument's own when it has one, else
   * BGO_CONF_DIR when set, else "./conf". An argument with a "/" (other than
   * "/" itself) has one; a plain name does not.
   */
  function ConfDir(file: string, env: Env, clean: string -> string): (r: string)
    ensures '/' in file && file != "/" ==> r == Dir(file, clean)
    ensures file != [] && '/' !in file && Getenv(env, ConfDirVar) != "" ==> r == Getenv(env, ConfDirVar)
    ensures file != [] && '/' !in file && Getenv(env, ConfDirVar) == "" ==> r == DefaultConfDir
  {
    BaseIsSelf(file);
    if Base(file) != file then Dir(file, clean)
    else if Getenv(env, ConfDirVar) != "" then Getenv(env, ConfDirVar)
    else DefaultConfDir
  }

  /**
   * Load, up to handing the location to viper: dst must not be nil and the
   * file argument must not be blank; otherwise the file name and the
   * directory are derived as FileName and ConfDir say.
   */
  method Load(dst: Value, file: string, env: Env, clean: string -> string) returns (r: Result<ConfFile, Error>)
    ensures r.Success? <==> dst != Nil && Text.TrimSpace(file) != ""
    ensures dst == Nil ==> r.Failure? && r.error == Plain("dst is nil")
    ensures dst != Nil && Text.TrimSpace(file) == "" ==> r.Failure? && r.error == Plain("file path is empty")
    ensures r.Success? ==> r.value == ConfFile(ConfDir(file, env, clean), FileName(file, env))
  {
    if dst == Nil {
      return Failure(Plain("dst is nil"));
    }
    if Text.TrimSpace(file) == "" {
      return Failure(Plain("file path is empty"));
    }
    var filename, hasDirPath := LoadFileName(file, env);
    var dir: string;
    if hasDirPath {
      dir := Dir(file, clean);
    } else if Getenv(env, ConfDirVar) != "" {
      dir := Getenv(env, ConfDirVar);
    } else {
      dir := DefaultConfDir;
    }
    return Success(ConfFile(dir, filename));
  }

  /** The file-name steps of Load: the base name, its extension cut off and the BGO_CONF_ENV suffix added. */
  method LoadFileName(file: string, env: Env) returns (filename: string, hasDirPath: bool)
    ensures filename == FileName(file, env)
    ensures hasDirPath <==> Base(file) != file
  {
    var base := Base(file);
    hasDirPath := base != file;
    var ext := Ext(base);
    filename := base;
    if ext != "" {
      filename := base[..|base| - |ext|];
    } else {
      assert base[..|base| - |ext|] == base;
    }
    assert filename == Stem(base);
    var v := Getenv(env, ConfEnvVar);
    if v != "" {
      filename := filename + "." + v;
    }
  }

  /**
   * An argument is its own base name exactly when it is not empty and is
   * either "/" or holds no "/": only then does Load look in BGO_CONF_DIR or
   * "./conf" rather than in the argument's directory.
   */
  lemma BaseIsSelf(p: string)
    ensures Base(p) == p <==> p != [] && (p == "/" || '/' !in p)
  {
    if p != [] {
      var q := TrimTrailingSlashes(p);
      if '/' !in p {
        assert q == p;
      } else if Base(p) == p {
        if p != "/" {
          assert false;
        }
      }
    }
  }

  /**
   * The directory choice, in the order Load's comment gives it: a path with
   * a directory part is looked up there; a bare name in BGO_CONF_DIR when
   * that is set, else in "./conf".
   */
  lemma ConfDirChoice(file: string, env: Env, clean: string -> string)
    requires file != ""
    ensures '/' in file && file != "/" ==> ConfDir(file, env, clean) == Dir(file, clean)
    ensures '/' !in file && ConfDirVar in env && env[ConfDirVar] != "" ==> ConfDir(file, env, clean) == env[ConfDirVar]
    ensures '/' !in file && (ConfDirVar !in env || env[ConfDirVar] == "") ==> ConfDir(file, env, clean) == DefaultConfDir
  {
    BaseIsSelf(file);
  }

  /**
   * A plain name, without "/" or ".", is its own file name, with "." and
   * BGO_CONF_ENV after it when that is set: "app" with BGO_CONF_ENV=dev is
   * read as "app.dev".
   */
  lemma FileNameOfPlain(name: string, env: Env)
    requires name != [] && '/' !in name && '.' !in name
    ensures var suffix := Getenv(env, ConfEnvVar);
      FileName(name, env) == if suffix == "" then name else name + "." + suffix
  {
    assert TrimTrailingSlashes(name) == name by {
      assert name[|name| - 1] != '/';
    }
    assert Text.LastIndex(name, '/') == -1;
    assert Base(name) == name;
    assert Text.LastIndex(name, '.') == -1;
    assert Ext(name) == "";
  }

  /**
   * The file name of a path dir/stem.ext, where the extension holds no "."
   * and neither part a "/", is the stem, with "." and BGO_CONF_ENV after it
   * when that is set: the directory and the last extension are dropped.
   */
  lemma {:induction false} FileNameOfPath(dir: string, stem: string, ext: string, env: Env)
    requires '/' !in stem && '/' !in ext && '.' !in ext
    ensures var suffix := Getenv(env, ConfEnvVar);
      FileName(dir + "/" + (stem + "." + ext), env) == if suffix == "" then stem else stem + "." + suffix
  {
    var name := stem + "." + ext;
    var f := dir + "/" + name;
    BaseOfPath(dir, name);
    ExtOfName(stem, ext);
    FileNameOf(f, stem, ext, env);
  }

  /** The base name of dir/name, for a name without "/", is the name. */
  lemma BaseOfPath(dir: string, name: string)
    requires name != [] && '/' !in name
    ensures Base(dir + "/" + name) == name
  {
    var f := dir + "/" + name;
    assert f == dir + ['/'] + name;
    assert TrimTrailingSlashes(f) == f by {
      assert f[|f| - 1] == name[|name| - 1] != '/';
    }
    Text.LastIndexAfter(dir, '/', name);
  }

  /** The extension of stem.ext, for an ext without "." and names without "/", is ".ext". */
  lemma ExtOfName(stem: string, ext: string)
    requires '/' !in stem && '/' !in ext && '.' !in ext
    ensures Ext(stem + "." + ext) == "." + ext
  {
    var name := stem + "." + ext;
    assert name == stem + ['.'] + ext;
    Text.LastIndexAfter(stem, '.', ext);
    assert '/' !in name;
    assert name[|stem|..] == "." + ext;
  }

  /** The stem of stem.ext, when ".ext" is its extension, is stem. */
  lemma StemOf(stem: string, ext: string)
    requires Ext(stem + "." + ext) == "." + ext
    ensures Stem(stem + "." + ext) == stem
  {
    var name := stem + "." + ext;
    assert Stem(name) + ("." + ext) == stem + ("." + ext);
    assert Stem(name) == (Stem(name) + ("." + ext))[..|stem|];
  }

  /** FileName once the base name and its stem are known. */
  lemma FileNameOf(file: string, stem: string, ext: string, env: Env)
    requires Base(file) == stem + "." + ext && Ext(stem + "." + ext) == "." + ext
    ensures var suffix := Getenv(env, ConfEnvVar);
      FileName(file, env) == if suffix == "" then stem else stem + "." + suffix
  {
    StemOf(stem, ext);
  }

  // ---------------------------------------------------------------------
  // bindConfEnv: binding the settings read to environment variables
  // ---------------------------------------------------------------------

  /**
   * A setting as viper.AllSettings gives it: a nested table of named
   * settings, or a single value. The fields of a table are in the order a
   * range over the Go map visits them.
   */
  datatype Setting = Table(fields: seq<Field>) | Leaf(v: Value)
  datatype Field = Field(name: string, val: Setting)

  /** What bindConfEnv asks of viper: Set(key, value) or BindEnv(key, name). */
  datatype Call = SetKey(key: string, value: string) | BindEnv(key: string, envName: string)

  /** The viper instance, seen through the calls it receives. */
  class Viper {
    var calls: seq<Call>

    constructor ()
      ensures calls == []
    {
      calls := [];
    }

    /** viper.Set */
    method Set(key: string, value: string)
      modifies this
      ensures calls == old(calls) + [SetKey(key, value)]
    {
      calls := calls + [SetKey(key, value)];
    }

    /** viper.BindEnv */
    method Bind(key: string, envName: string)
      modifies this
      ensures calls == old(calls) + [BindEnv(key, envName)]
    {
      calls := calls + [BindEnv(key, envName)];
    }
  }

  /**
   * The calls bindConfEnv makes for the setting under key: a table's
   * fields in turn under key + "." + their name; a string placeholder whose
   * variable is unset sets the key to the default, one whose variable is set
   * binds the key to it; anything else makes none.
   */
  function Calls(key: string, s: Setting, env: Env): seq<Call>
    decreases s, 1, 0
  {
    match s
    case Table(fs) => FieldCalls(key, s, |fs|, env)
    case Leaf(v) =>
      if !v.Str? then []
      else
        var (name, dflt) := ParseEnv(v.s);
        if name == "" then []
        else if name !in env then [SetKey(key, dflt)]
        else [BindEnv(key, name)]
  }

  /** The calls for the first n fields of a table under key. */
  function FieldCalls(key: string, s: Setting, n: nat, env: Env): seq<Call>
    requires s.Table? && n <= |s.fields|
    decreases s, 0, n
  {
    if n == 0 then []
    else
      var f := s.fields[n - 1];
      assert f in s.fields;
      FieldCalls(key, s, n - 1, env) + Calls(key + "." + f.name, f.val, env)
  }

  /**
   * bindConfEnv: walks the setting under key, recursing into tables, and
   * makes exactly the calls Calls lists, in that order.
   */
  method BindConfEnv(vp: Viper, key: string, val: Setting, env: Env)
    modifies vp
    ensures vp.calls == old(vp.calls) + Calls(key, val, env)
    decreases val
  {
    match val
    case Table(fs) =>
      for i := 0 to |fs|
        invariant vp.calls == old(vp.calls) + FieldCalls(key, val, i, env)
      {
        assert fs[i] in fs;
        BindConfEnv(vp, key + "." + fs[i].name, fs[i].val, env);
      }
    case Leaf(v) =>
      if v.Str? {
        var (name, dflt) := ParseEnv(v.s);
        if name == "" {
          return;
        }
        if name !in env {
          vp.Set(key, dflt);
          return;
        }
        vp.Bind(key, name);
      }
  }

  /** The calls for the first n top-level settings, each under its own name. */
  function SettingsCalls(settings: seq<Field>, n: nat, env: Env): seq<Call>
    requires n <= |settings|
  {
    if n == 0 then [] else SettingsCalls(settings, n - 1, env) + Calls(settings[n - 1].name, settings[n - 1].val, env)
  }

  /**
   * The loop of Load over viper.AllSettings: every top-level setting is
   * bound under its own name, in the order of the settings.
   */
  method BindSettings(vp: Viper, settings: seq<Field>, env: Env)
    modifies vp
    ensures vp.calls == old(vp.calls) + SettingsCalls(settings, |settings|, env)
  {
    for i := 0 to |settings|
      invariant vp.calls == old(vp.calls) + SettingsCalls(settings, i, env)
    {
      BindConfEnv(vp, settings[i].name, settings[i].val, env);
    }
  }

  /** Every key bindConfEnv sets or binds is the key it started from or lies below it, after a ".". */
  lemma {:induction false} CallsUnderKey(key: string, s: Setting, env: Env)
    ensures forall c :: c in Calls(key, s, env) ==> c.key == key || Text.HasPrefix(c.key, key + ".")
    decreases s, 1, 0
  {
    if s.Table? {
      FieldCallsUnderKey(key, s, |s.fields|, env);
    }
  }

  lemma {:induction false} FieldCallsUnderKey(key: string, s: Setting, n: nat, env: Env)
    requires s.Table? && n <= |s.fields|
    ensures forall c :: c in FieldCalls(key, s, n, env) ==> Text.HasPrefix(c.key, key + ".")
    decreases s, 0, n
  {
    if n > 0 {
      var f := s.fields[n - 1];
      assert f in s.fields;
      FieldCallsUnderKey(key, s, n - 1, env);
      var sub := key + "." + f.name;
      CallsUnderKey(sub, f.val, env);
      forall c | c in Calls(sub, f.val, env) ensures Text.HasPrefix(c.key, key + ".") {
        assert sub[..|key| + 1] == key + ".";
        if c.key != sub {
          assert c.key[..|sub|] == sub;
        }
      }
    }
  }

  /** A placeholder whose variable is not set makes the key take the placeholder's default. */
  lemma UnsetTakesDefault(key: string, name: string, dflt: string, env: Env)
    requires IsName(name) && '\n' !in dflt && name !in env
    ensures Calls(key, Leaf(Str("${" + name + ":" + dflt + "}")), env) == [SetKey(key, dflt)]
  {
    ParseEnvDefault(name, dflt);
  }

  /** A placeholder whose variable is set binds the key to that variable. */
  lemma SetBindsEnv(key: string, name: string, dflt: string, env: Env)
    requires IsName(name) && '\n' !in dflt && name in env
    ensures Calls(key, Leaf(Str("${" + name + ":" + dflt + "}")), env) == [BindEnv(key, name)]
  {
    ParseEnvDefault(name, dflt);
  }

  /** A string that is no placeholder, and any value that is no string and no table, is left alone. */
  lemma PlainLeafIgnored(key: string, v: Value, env: Env)
    requires !v.Str? || ParseEnv(v.s).0 == ""
    ensures Calls(key, Leaf(v), env) == []
  {
  }

  /**
   * A nested table: {db: {host: "${DB_HOST:localhost}", port: 3306, name:
   * "app"}} with DB_HOST unset sets db.host to localhost and nothing else.
   */
  method NestedDefaultScenario() returns (calls: seq<Call>)
    ensures calls == [SetKey("db.host", "localhost")]
  {
    var vp := new Viper();
    var db := Table([Field("host", Leaf(Str("${DB_HOST:localhost}"))), Field("port", Leaf(Int(3306))), Field("name", Leaf(Str("app")))]);
    HostField(db);
    OtherFields(db);
    BindConfEnv(vp, "db", db, map[]);
    calls := vp.calls;
  }

  /** The first field of the scenario's table sets db.host to its default. */
  lemma HostField(db: Setting)
    requires db.Table? && |db.fields| >= 1 && db.fields[0] == Field("host", Leaf(Str("${DB_HOST:localhost}")))
    ensures FieldCalls("db", db, 1, map[]) == [SetKey("db.host", "localhost")]
  {
    assert "${DB_HOST:localhost}" == "${" + "DB_HOST" + ":" + "localhost" + "}";
    assert "db" + "." + "host" == "db.host";
    UnsetTakesDefault("db.host", "DB_HOST", "localhost", map[]);
  }

  /** The port and the plain name of the scenario's table make no calls. */
  lemma OtherFields(db: Setting)
    requires db.Table? && |db.fields| == 3
    requires db.fields[1] == Field("port", Leaf(Int(3306))) && db.fields[2] == Field("name", Leaf(Str("app")))
    ensures FieldCalls("db", db, 3, map[]) == FieldCalls("db", db, 1, map[])
  {
    assert FieldCalls("db", db, 2, map[]) == FieldCalls("db", db, 1, map[]);
    PlainLeafIgnored("db" + "." + "name", Str("app"), map[]);
  }
}
