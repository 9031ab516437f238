/** ConfigReader: two property layers, the environment file over the base
    file, read through `get`, `getLong`, `containsKey`, `getAllProperties` and
    `getProperty`. Loading the files is I/O and is not modelled: the layers
    are given as maps. */
module Config {
  import opened Common
  import opened JavaStrings

  type Properties = map<string, string>

  /** `env` holds `<env>.properties`, `base` holds `config.properties`. */
  datatype Layers = Layers(env: Properties, base: Properties)

  const BaseConfigPath := "src/main/resources/config/"
  const DefaultEnv := "dev"

  /** The file the environment layer is read from, given the `env` system
      property (`None` when it is not set). */
  function EnvFilePath(envProperty: Option<string>): (path: string)
    ensures |path| == |BaseConfigPath| + |envProperty.GetOr(DefaultEnv)| + |".properties"|
    ensures path[..|BaseConfigPath|] == BaseConfigPath
    ensures path[|path| - |".properties"|..] == ".properties"
    ensures forall i :: |BaseConfigPath| <= i < |path| ==> !('A' <= path[i] <= 'Z')
    ensures path[|BaseConfigPath|..|path| - |".properties"|] == ToLowerCase(envProperty.GetOr(DefaultEnv))
  {
    var env := ToLowerCase(envProperty.GetOr(DefaultEnv));
    BaseConfigPath + env + ".properties"
  }

  /** Without an `env` property the development file is read. */
  lemma DefaultEnvFile()
    ensures EnvFilePath(None) == "src/main/resources/config/dev.properties"
  {
    assert ToLowerCase("dev") == "dev";
  }

  /** The `env` property is case-insensitive. */
  lemma EnvFileIgnoresCase(a: string, b: string)
    requires ToLowerCase(a) == ToLowerCase(b)
    ensures EnvFilePath(Some(a)) == EnvFilePath(Some(b))
  {
  }

  /** A layer holds a value for `key` that `get` accepts. */
  predicate Usable(layer: Properties, key: string) {
    key in layer && !IsBlank(layer[key])
  }

  function Lookup(layer: Properties, key: string): Option<string> {
    if key in layer then Some(layer[key]) else None
  }

  /** `ConfigReader.get`: the environment value unless it is absent or blank,
      then the base value unless it is absent or blank, trimmed. */
  function Get(c: Layers, key: string): (r: Result<string>)
    ensures r.Ok? <==> Usable(c.env, key) || Usable(c.base, key)
    ensures Usable(c.env, key) ==> r == Ok(Trim(c.env[key]))
    ensures !Usable(c.env, key) && Usable(c.base, key) ==> r == Ok(Trim(c.base[key]))
    ensures r.Err? ==> r.error == MissingConfigKey(key)
    ensures r.Ok? ==> !IsBlank(r.value) && r.value != ""
    ensures r.Ok? ==> !IsTrimmable(r.value[0]) && !IsTrimmable(r.value[|r.value| - 1])
  {
    var fromEnv := Lookup(c.env, key);
    var value := if fromEnv.None? || IsBlank(fromEnv.value) then Lookup(c.base, key) else fromEnv;
    if value.None? || IsBlank(value.value) then
      Err(MissingConfigKey(key))
    else
      TrimShape(value.value);
      TrimIdempotent(value.value);
      Ok(Trim(value.value))
  }

  /** `ConfigReader.getLong`: the decimal value of `get(key)`. A failure of
      `get` passes through unchanged; only a NumberFormatException becomes
      "Invalid long value". */
  function GetLong(c: Layers, key: string): (r: Result<int>)
    ensures Get(c, key).Err? ==> r == Err(Get(c, key).error)
    ensures Get(c, key).Ok? && ParseLong(Get(c, key).value).None? ==> r == Err(InvalidLong(key))
    ensures Get(c, key).Ok? && ParseLong(Get(c, key).value).Some? ==> r == Ok(ParseLong(Get(c, key).value).value)
    ensures r.Ok? ==> MinLong <= r.value <= MaxLong
  {
    match Get(c, key)
    case Err(e) => Err(e)
    case Ok(text) =>
      match ParseLong(text)
      case None => Err(InvalidLong(key))
      case Some(n) => Ok(n)
  }

  /** `ConfigReader.containsKey`: either layer holds the key, blank or not,
      which is to say the merged view of `getAllProperties` has it. */
  predicate ContainsKey(c: Layers, key: string): (b: bool)
    ensures b <==> key in GetAllProperties(c)
  {
    key in c.env || key in c.base
  }

  /** `ConfigReader.getAllProperties`: base entries, then environment entries
      put over them; blank environment values win too. */
  function GetAllProperties(c: Layers): (all: Properties)
    ensures all.Keys == c.env.Keys + c.base.Keys
    ensures forall k :: k in c.env ==> all[k] == c.env[k]
    ensures forall k :: k in c.base && k !in c.env ==> all[k] == c.base[k]
  {
    c.base + c.env
  }

  /** `ConfigReader.getProperty` is an alias of `get`. */
  function GetProperty(c: Layers, key: string): (r: Result<string>)
    ensures r == Get(c, key)
  {
    Get(c, key)
  }

  // ------------------------------------------------------------ properties

  /** Whatever `get` finds, `containsKey` reports; the converse fails exactly
      when every value present for the key is blank. */
  lemma ContainsKeyVersusGet(c: Layers, key: string)
    ensures Get(c, key).Ok? ==> ContainsKey(c, key)
    ensures ContainsKey(c, key) && Get(c, key).Err? <==>
      ContainsKey(c, key) && (key in c.env ==> IsBlank(c.env[key])) && (key in c.base ==> IsBlank(c.base[key]))
  {
  }

  /** A key whose only value is blank is "contained" and yet missing. */
  lemma BlankKeyContainedButMissing(key: string)
    ensures var c := Layers(map[key := "  "], map[]);
      ContainsKey(c, key) && Get(c, key) == Err(MissingConfigKey(key))
  {
    var c := Layers(map[key := "  "], map[]);
    BlankIff("  ");
  }

  /** The merged view agrees with `get` on a usable environment value, and
      disagrees when the environment value is blank but the base one is not. */
  lemma MergedViewVersusGet(c: Layers, key: string)
    ensures Usable(c.env, key) ==> Get(c, key) == Ok(Trim(GetAllProperties(c)[key]))
    ensures key in c.env && IsBlank(c.env[key]) && Usable(c.base, key) ==>
      Get(c, key).Ok? && GetAllProperties(c)[key] == c.env[key] && Get(c, key).value != GetAllProperties(c)[key]
  {
  }

  /** A configured number, surrounded by any trimmable padding, reads back
      through `getLong` as that number. */
  lemma GetLongOfWrittenNumber(c: Layers, key: string, n: int, pad: string)
    requires MinLong <= n <= MaxLong
    requires forall i :: 0 <= i < |pad| ==> IsTrimmable(pad[i])
    requires c.env == map[key := pad + LongToString(n) + pad]
    ensures GetLong(c, key) == Ok(n)
  {
    TrimPadded(pad, LongToString(n));
    assert Get(c, key) == Ok(LongToString(n));
    ParseLongOfToString(n);
  }

  lemma TrimPadded(pad: string, s: string)
    requires forall i :: 0 <= i < |pad| ==> IsTrimmable(pad[i])
    requires s != [] && !IsTrimmable(s[0]) && !IsTrimmable(s[|s| - 1])
    ensures Trim(pad + s + pad) == s && !IsBlank(pad + s + pad)
  {
    var v := pad + s + pad;
    assert v == pad + (s + pad);
    TrimStartSkips(pad, s + pad);
    TrimEndSkips(s, pad);
  }

  lemma {:induction false} TrimStartSkips(pad: string, rest: string)
    requires forall i :: 0 <= i < |pad| ==> IsTrimmable(pad[i])
    requires rest != [] && !IsTrimmable(rest[0])
    ensures TrimStart(pad + rest) == rest
  {
    if pad != [] {
      assert (pad + rest)[1..] == pad[1..] + rest;
      TrimStartSkips(pad[1..], rest);
    }
  }

  lemma {:induction false} TrimEndSkips(rest: string, pad: string)
    requires forall i :: 0 <= i < |pad| ==> IsTrimmable(pad[i])
    requires rest != [] && !IsTrimmable(rest[|rest| - 1])
    ensures TrimEnd(rest + pad) == rest
  {
    if pad != [] {
      assert (rest + pad)[..|rest + pad| - 1] == rest + pad[..|pad| - 1];
      TrimEndSkips(rest, pad[..|pad| - 1]);
    } else {
      assert rest + pad == rest;
    }
  }
}
