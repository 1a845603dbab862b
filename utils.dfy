/**
 * The plugin and configuration registries of crates/utils/src/lib.rs. Both
 * are maps keyed by name that overwrite on insert and report a missing key
 * as an error.
 */
module Registries {
  import opened Wrappers
  import opened Collections

  /** A JSON value, as the plugins and options exchange them. */
  datatype Json =
    | Null
    | Bool(b: bool)
    | Num(n: real)
    | Str(s: string)
    | Array(items: seq<Json>)
    | Object(fields: map<string, Json>)

  /**
   * A plugin: its identifying strings and what `execute` computes. The
   * plugin's own code is outside this model, so its behaviour is a function
   * value supplied with it.
   */
  datatype Plugin = Plugin(name: string, version: string, description: string, run: Json -> Result<Json, string>)

  // ---------------------------------------------------------------------------
  // Plugins

  class PluginManager {
    var plugins: map<string, Plugin>

    /** Every plugin is registered under its own name. */
    ghost predicate Valid()
      reads this
    {
      forall n :: n in plugins ==> plugins[n].name == n
    }

    constructor ()
      ensures plugins == map[]
      ensures Valid()
    {
      plugins := map[];
    }

    /** Registers `plugin` under its name, replacing any plugin of that name. Never fails. */
    method RegisterPlugin(plugin: Plugin) returns (r: Result<(), string>)
      requires Valid()
      modifies this
      ensures Valid()
      ensures r == Ok(())
      ensures plugins == old(plugins)[plugin.name := plugin]
    {
      plugins := plugins[plugin.name := plugin];
      r := Ok(());
    }

    function GetPlugin(name: string): (r: Option<Plugin>)
      reads this
      ensures r.Some? <==> name in plugins
      ensures r.Some? ==> r.value == plugins[name]
      ensures Valid() && r.Some? ==> r.value.name == name
    {
      if name in plugins then Some(plugins[name]) else None
    }

    /** The registered names, each once, in the map's iteration order. */
    method ListPlugins() returns (names: seq<string>)
      ensures Distinct(names)
      ensures Elements(names) == plugins.Keys
      ensures |names| == |plugins|
    {
      names := Enumerate(plugins);
    }

    /** Runs the named plugin on `data`, or reports that no plugin has that name. */
    function ExecutePlugin(name: string, data: Json): (r: Result<Json, string>)
      reads this
      ensures name !in plugins ==> r == Err("Plugin not found: " + name)
      ensures name in plugins ==> r == plugins[name].run(data)
    {
      if name in plugins then plugins[name].run(data) else Err("Plugin not found: " + name)
    }
  }

  // ---------------------------------------------------------------------------
  // Configuration options

  datatype ConfigType = String | Number | Boolean | Select(choices: seq<string>)

  datatype ConfigOption = ConfigOption(key: string, caption: string, value: Json, kind: ConfigType, description: Option<string>)

  class ConfigManager {
    var options: map<string, ConfigOption>

    /** Every option is stored under its own key. */
    ghost predicate Valid()
      reads this
    {
      forall k :: k in options ==> options[k].key == k
    }

    constructor ()
      ensures options == map[]
      ensures Valid()
    {
      options := map[];
    }

    /** Stores `option` under its key, replacing any option with that key. */
    method AddOption(option: ConfigOption)
      requires Valid()
      modifies this
      ensures Valid()
      ensures options == old(options)[option.key := option]
    {
      options := options[option.key := option];
    }

    function GetOption(key: string): (r: Option<ConfigOption>)
      reads this
      ensures r.Some? <==> key in options
      ensures r.Some? ==> r.value == options[key]
      ensures Valid() && r.Some? ==> r.value.key == key
    {
      if key in options then Some(options[key]) else None
    }

    /** Replaces the value of an existing option; a missing key is an error and changes nothing. */
    method SetOptionValue(key: string, value: Json) returns (r: Result<(), string>)
      requires Valid()
      modifies this
      ensures Valid()
      ensures key !in old(options) ==> r == Err("Config option not found: " + key) && options == old(options)
      ensures key in old(options) ==> r == Ok(()) && options == old(options)[key := old(options)[key].(value := value)]
    {
      if key in options {
        options := options[key := options[key].(value := value)];
        r := Ok(());
      } else {
        r := Err("Config option not found: " + key);
      }
    }

    /** Every option once, in the map's iteration order. */
    method ListOptions() returns (list: seq<ConfigOption>)
      requires Valid()
      ensures |list| == |options|
      ensures Elements(list) == options.Values
      ensures Distinct(list)
    {
      var keys := Enumerate(options);
      list := [];
      var i := 0;
      while i < |keys|
        invariant 0 <= i <= |keys|
        invariant |list| == i
        invariant forall k :: 0 <= k < i ==> list[k] == options[keys[k]]
      {
        list := list + [options[keys[i]]];
        i := i + 1;
      }
      forall j, k | 0 <= j < k < |list| ensures list[j] != list[k] {
        assert list[j].key == keys[j] && list[k].key == keys[k];
      }
      forall o | o in options.Values ensures o in list {
        var key :| key in options && options[key] == o;
        assert key in Elements(keys);
        var k :| 0 <= k < |keys| && keys[k] == key;
        assert list[k] == o;
      }
    }
  }

  // ---------------------------------------------------------------------------
  // The unit tests' scenarios

  function TestPluginRun(data: Json): Result<Json, string>
  {
    Ok(Object(map["result" := Str("success")]))
  }

  /** One registered plugin is the only one listed and runs when executed by name. */
  method PluginScenario() returns (names: seq<string>, result: Result<Json, string>)
    ensures names == ["test_plugin"]
    ensures result == Ok(Object(map["result" := Str("success")]))
  {
    var manager := new PluginManager();
    var _ := manager.RegisterPlugin(Plugin("test_plugin", "1.0.0", "A test plugin", TestPluginRun));
    names := manager.ListPlugins();
    if |names| == 1 {
      assert names[0] in Elements(names);
    }
    result := manager.ExecutePlugin("test_plugin", Object(map["input" := Str("test")]));
  }

  /** A second registration under the same name replaces the first; an unknown name is an error. */
  method ReplaceScenario(first: Plugin, second: Plugin, other: string, data: Json) returns (count: nat, found: Option<Plugin>, missing: Result<Json, string>)
    requires first.name == second.name && other != first.name
    ensures count == 1
    ensures found == Some(second)
    ensures missing == Err("Plugin not found: " + other)
  {
    var manager := new PluginManager();
    var _ := manager.RegisterPlugin(first);
    var _ := manager.RegisterPlugin(second);
    var names := manager.ListPlugins();
    count := |names|;
    found := manager.GetPlugin(first.name);
    missing := manager.ExecutePlugin(other, data);
  }

  /** An option set from 1000 to 2000 reads back 2000; setting an unknown key fails. */
  method ConfigScenario() returns (listed: nat, before: Json, after: Json, unknown: Result<(), string>)
    ensures listed == 1
    ensures before == Num(1000.0) && after == Num(2000.0)
    ensures unknown == Err("Config option not found: refresh")
  {
    var manager := new ConfigManager();
    manager.AddOption(ConfigOption("refresh_interval", "Refresh Interval (ms)", Num(1000.0), ConfigType.Number,
                                   Some("How often to refresh metrics")));
    var list := manager.ListOptions();
    listed := |list|;
    before := manager.GetOption("refresh_interval").value.value;
    var _ := manager.SetOptionValue("refresh_interval", Num(2000.0));
    after := manager.GetOption("refresh_interval").value.value;
    assert "refresh" != "refresh_interval" by {
      assert |"refresh"| != |"refresh_interval"|;
    }
    unknown := manager.SetOptionValue("refresh", Null);
    assert "Config option not found: " + "refresh" == "Config option not found: refresh";
  }
}
