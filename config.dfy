/**
 * The configuration object of dvc_osf/config.py.
 *
 * `OSFConfig` keeps four named settings and a dictionary of the remaining
 * keyword arguments. `FromDict` binds a dictionary to the constructor's
 * parameters the way `cls(**config)` does, and `ToDict` builds the dictionary
 * back. `BindArguments` and `Serialize` specify those two steps on values,
 * and the lemmas relate them in both directions.
 */
module Config {
  import opened Wrappers

  /** A configuration value: a string, an integer or `None`. */
  datatype Value = NoneVal | StrVal(s: string) | IntVal(i: int)

  /** A Python dictionary with string keys. */
  type Dict = map<string, Value>

  /** The constructor's named parameters, which are also the named keys of `to_dict`. */
  const NamedParameters: set<string> := {"token", "project_id", "timeout", "retries"}

  /** The constructor's default arguments. */
  const Defaults: Dict :=
    map["token" := NoneVal, "project_id" := NoneVal, "timeout" := IntVal(30), "retries" := IntVal(3)]

  /**
   * The `TypeError` that `cls(**config)` raises when `config` has the key
   * "self": that key would be a second value for the bound instance.
   */
  datatype TypeError = MultipleValuesForSelf

  /** What the constructor stores: the four named fields and `extra_config`. */
  datatype Settings = Settings(token: Value, projectId: Value, timeout: Value, retries: Value, extra: Dict)

  /** `extra_config` holds only keyword arguments that no parameter took. */
  predicate WellFormed(s: Settings) {
    NamedParameters !! s.extra.Keys && "self" !in s.extra
  }

  /** The value a named parameter takes under `cls(**config)`: the entry when present, else the default. */
  function Argument(config: Dict, name: string): (v: Value)
    requires name in NamedParameters
  {
    if name in config then config[name] else Defaults[name]
  }

  /** How `cls(**config)` binds a dictionary to the constructor's parameters. */
  function BindArguments(config: Dict): (r: Result<Settings, TypeError>)
    ensures r.Err? <==> "self" in config
    ensures r.Ok? ==> WellFormed(r.value)
    ensures r.Ok? ==> r.value.extra.Keys == config.Keys - NamedParameters
    ensures r.Ok? ==> forall k :: k in r.value.extra ==> r.value.extra[k] == config[k]
    ensures r.Ok? ==> r.value.token == (if "token" in config then config["token"] else NoneVal)
    ensures r.Ok? ==> r.value.projectId == (if "project_id" in config then config["project_id"] else NoneVal)
    ensures r.Ok? ==> r.value.timeout == (if "timeout" in config then config["timeout"] else IntVal(30))
    ensures r.Ok? ==> r.value.retries == (if "retries" in config then config["retries"] else IntVal(3))
  {
    if "self" in config then Err(MultipleValuesForSelf)
    else Ok(Settings(Argument(config, "token"), Argument(config, "project_id"),
                     Argument(config, "timeout"), Argument(config, "retries"),
                     config - NamedParameters))
  }

  /** The dictionary `to_dict` returns: the four named entries, then `extra_config` written over them. */
  function Serialize(s: Settings): (d: Dict)
    ensures d.Keys == NamedParameters + s.extra.Keys
    ensures forall k :: k in s.extra ==> d[k] == s.extra[k]
    ensures WellFormed(s) ==>
      d["token"] == s.token && d["project_id"] == s.projectId &&
      d["timeout"] == s.timeout && d["retries"] == s.retries
  {
    map["token" := s.token, "project_id" := s.projectId, "timeout" := s.timeout, "retries" := s.retries]
      + s.extra
  }

  /** Serializing and binding back gives the same settings. */
  lemma SerializeThenBind(s: Settings)
    requires WellFormed(s)
    ensures BindArguments(Serialize(s)) == Ok(s)
  {
    var d := Serialize(s);
    assert "self" !in d;
    var t := BindArguments(d).value;
    assert t.extra == s.extra by {
      assert t.extra.Keys == s.extra.Keys;
    }
  }

  /** Binding and serializing back gives the dictionary with the missing named keys set to their defaults. */
  lemma BindThenSerialize(config: Dict)
    requires "self" !in config
    ensures Serialize(BindArguments(config).value) == Defaults + config
  {
    var d := Serialize(BindArguments(config).value);
    var e := Defaults + config;
    assert d.Keys == e.Keys;
    forall k | k in d
      ensures d[k] == e[k]
    {
      BoundEntry(config, k);
    }
  }

  /** One entry of the bound-then-serialised dictionary. */
  lemma BoundEntry(config: Dict, k: string)
    requires "self" !in config
    requires k in NamedParameters || k in config
    ensures Serialize(BindArguments(config).value)[k] == (Defaults + config)[k]
  {
    var s := BindArguments(config).value;
    if k == "token" {
      assert Serialize(s)[k] == s.token;
    } else if k == "project_id" {
      assert Serialize(s)[k] == s.projectId;
    } else if k == "timeout" {
      assert Serialize(s)[k] == s.timeout;
    } else if k == "retries" {
      assert Serialize(s)[k] == s.retries;
    } else {
      assert k in s.extra;
    }
  }

  /** A configuration object. */
  class OSFConfig {
    var token: Value
    var projectId: Value
    var timeout: Value
    var retries: Value
    var extraConfig: Dict

    /** The object's fields as a value. */
    function State(): (s: Settings)
      reads this
    {
      Settings(token, projectId, timeout, retries, extraConfig)
    }

    /** `extra_config` holds no key a named parameter would have taken. */
    predicate Valid()
      reads this
    {
      WellFormed(State())
    }

    /** `OSFConfig(token, project_id, timeout, retries, **kwargs)`. */
    constructor (token: Value := NoneVal, projectId: Value := NoneVal,
                 timeout: Value := IntVal(30), retries: Value := IntVal(3),
                 kwargs: Dict := map[])
      requires NamedParameters !! kwargs.Keys && "self" !in kwargs
      ensures State() == Settings(token, projectId, timeout, retries, kwargs)
      ensures Valid()
    {
      this.token := token;
      this.projectId := projectId;
      this.timeout := timeout;
      this.retries := retries;
      this.extraConfig := kwargs;
    }

    /** `OSFConfig.from_dict(config)`: a new object, or the `TypeError` that binding raises. */
    static method FromDict(config: Dict) returns (r: Result<OSFConfig, TypeError>)
      ensures r.Err? <==> "self" in config
      ensures r.Ok? ==> fresh(r.value) && r.value.Valid()
      ensures r.Ok? ==> r.value.State() == BindArguments(config).value
    {
      if "self" in config {
        return Err(MultipleValuesForSelf);
      }
      var c := new OSFConfig(Argument(config, "token"), Argument(config, "project_id"),
                             Argument(config, "timeout"), Argument(config, "retries"),
                             config - NamedParameters);
      return Ok(c);
    }

    /**
     * `to_dict()`: a fresh dictionary of the four named fields updated with
     * `extra_config`. The object itself is not changed.
     */
    method ToDict() returns (d: Dict)
      ensures d == Serialize(State())
      ensures d.Keys == NamedParameters + extraConfig.Keys
      ensures forall k :: k in extraConfig ==> d[k] == extraConfig[k]
      ensures Valid() ==>
        d["token"] == token && d["project_id"] == projectId &&
        d["timeout"] == timeout && d["retries"] == retries
    {
      d := map["token" := token, "project_id" := projectId, "timeout" := timeout, "retries" := retries];
      d := d + extraConfig;
    }
  }

  /** `OSFConfig.from_dict(c.to_dict())` has the same named fields and `extra_config` as `c`. */
  method ToDictThenFromDict(c: OSFConfig) returns (copy: OSFConfig)
    requires c.Valid()
    ensures copy.State() == c.State()
  {
    var d := c.ToDict();
    SerializeThenBind(c.State());
    var r := OSFConfig.FromDict(d);
    copy := r.value;
  }

  /** `OSFConfig.from_dict(config).to_dict()` is `config` with the missing named keys at their defaults. */
  method FromDictThenToDict(config: Dict) returns (d: Dict)
    requires "self" !in config
    ensures d == Defaults + config
  {
    var r := OSFConfig.FromDict(config);
    d := r.value.ToDict();
    BindThenSerialize(config);
  }
}
