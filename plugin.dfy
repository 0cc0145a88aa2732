/** The settings helper itself: its storage key, the host's plugin storage,
    and the option store whose methods update its tables in place. */
module Plugin {
  import opened Values
  import opened OptionTable

  /** Characters the short plugin name keeps: `[a-zA-Z0-9-_]`. */
  predicate IsNameChar(c: char) {
    'a' <= c <= 'z' || 'A' <= c <= 'Z' || '0' <= c <= '9' || c == '-' || c == '_'
  }

  /** Characters a derived storage key is made of: `[a-z0-9-_]`. */
  predicate IsKeyChar(c: char) {
    'a' <= c <= 'z' || '0' <= c <= '9' || c == '-' || c == '_'
  }

  /** ASCII lower-casing (only ASCII letters survive the filter). */
  function Lower(c: char): (r: char)
    ensures 'A' <= c <= 'Z' ==> r as int == c as int + 32
    ensures !('A' <= c <= 'Z') ==> r == c
    ensures IsNameChar(c) ==> IsKeyChar(r)
  {
    if 'A' <= c <= 'Z' then (c as int - 'A' as int + 'a' as int) as char else c
  }

  /** The plugin name with every character outside `[a-zA-Z0-9-_]` removed,
      then lower-cased. */
  function ShortName(name: string): (r: string)
    ensures |r| <= |name|
    ensures forall i :: 0 <= i < |r| ==> IsKeyChar(r[i])
  {
    if name == [] then []
    else (if IsNameChar(name[0]) then [Lower(name[0])] else []) + ShortName(name[1..])
  }

  /** One character: kept and lower-cased when it is in `[a-zA-Z0-9-_]`,
      dropped otherwise. With `ShortNameAppend` this fixes every short name. */
  lemma ShortNameOneChar(c: char)
    ensures ShortName([c]) == if IsNameChar(c) then [Lower(c)] else []
  {
    assert [c][1..] == [];
  }

  /** The short name of a concatenation is the concatenation of the short names. */
  lemma {:induction false} ShortNameAppend(a: string, b: string)
    ensures ShortName(a + b) == ShortName(a) + ShortName(b)
  {
    if a == [] {
      assert a + b == b;
    } else {
      assert (a + b)[0] == a[0];
      assert (a + b)[1..] == a[1..] + b;
      ShortNameAppend(a[1..], b);
    }
  }

  /** A name already made of key characters is its own short name. */
  lemma {:induction false} ShortNameKeepsKeyChars(name: string)
    requires forall i :: 0 <= i < |name| ==> IsKeyChar(name[i])
    ensures ShortName(name) == name
  {
    if name != [] {
      ShortNameKeepsKeyChars(name[1..]);
    }
  }

  /** Shortening twice is shortening once. */
  lemma {:induction false} ShortNameIdempotent(name: string)
    ensures ShortName(ShortName(name)) == ShortName(name)
  {
    ShortNameKeepsKeyChars(ShortName(name));
  }

  /** "My App!" shortens to "myapp". */
  lemma ShortNameExample()
    ensures ShortName("My App!") == "myapp"
  {
  }

  /** The storage key: the one given, unless it is absent or empty (both falsy),
      else the short name followed by "-options". */
  function StorageKeyFor(name: string, given: Option<string>): (r: string)
    ensures given.Some? && given.value != "" ==> r == given.value
    ensures given.None? || given.value == "" ==> r == ShortName(name) + "-options"
    ensures given.None? || given.value == "" ==> forall i :: 0 <= i < |r| ==> IsKeyChar(r[i])
  {
    if given.Some? && given.value != "" then given.value else ShortName(name) + "-options"
  }

  /** The host's `bdPluginStorage`: one saved blob of simple values per storage key. */
  class PluginStorage {
    var blobs: map<string, map<string, Value>>

    constructor ()
      ensures blobs == map[]
    {
      blobs := map[];
    }

    /** The blob saved under `key`, if any. */
    function Fetch(key: string): (r: Option<map<string, Value>>)
      reads this
      ensures r.Some? <==> key in blobs
      ensures r.Some? ==> r.value == blobs[key]
    {
      if key in blobs then Some(blobs[key]) else None
    }

    method Put(key: string, blob: map<string, Value>)
      modifies this
      ensures blobs == old(blobs)[key := blob]
    {
      blobs := blobs[key := blob];
    }
  }

  /** The option store. `options` is the live table, `defaults` the normalised
      schema given at construction; `storage` is the host storage it saves to. */
  class OptionsPlugin {
    var options: Table
    var defaults: Table
    const pluginName: string
    const storageKey: string
    const storage: PluginStorage

    /** Normalises the defaults' range entries, starts the live table as a copy
        of them and derives the storage key. An absent defaults table counts as
        empty. Nothing is loaded or saved. */
    constructor (name: string, key: Option<string>, schema: Option<Table>, store: PluginStorage)
      ensures pluginName == name && storage == store
      ensures storageKey == StorageKeyFor(name, key)
      ensures defaults.Keys == schema.GetOr(map[]).Keys
      ensures forall k :: k in defaults ==> defaults[k] == NormaliseEntry(schema.GetOr(map[])[k])
      ensures options == defaults
    {
      var normalised := NormaliseDefaults(schema.GetOr(map[]));
      options := normalised;
      defaults := normalised;
      pluginName := name;
      storageKey := StorageKeyFor(name, key);
      storage := store;
    }

    /** `get`: the key's value, or nothing for an unknown key. */
    method Get(name: string) returns (r: Option<Value>)
      ensures r == Lookup(options, name)
      ensures r.Some? <==> name in options
    {
      if name !in options {
        return None;
      }
      r := Some(options[name].value);
    }

    /** `getAll`: the whole live table. */
    method GetAll() returns (r: Table)
      ensures r == options
    {
      r := options;
    }

    /** `simpleOptions`: each key of the live table mapped to its value. */
    method SimpleOptions() returns (r: map<string, Value>)
      ensures r == SimpleValues(options)
      ensures r.Keys == options.Keys
    {
      r := map[];
      var todo := options.Keys;
      while todo != {}
        invariant todo <= options.Keys
        invariant r.Keys == options.Keys - todo
        invariant forall k :: k in r ==> r[k] == options[k].value
        decreases todo
      {
        var k :| k in todo;
        r := r[k := options[k].value];
        todo := todo - {k};
      }
    }

    /** `save`: writes the simple values under the storage key; other keys of
        the storage and the tables are unchanged. */
    method Save()
      modifies storage
      ensures storage.blobs == old(storage.blobs)[storageKey := SimpleValues(options)]
    {
      var simple := SimpleOptions();
      storage.Put(storageKey, simple);
    }

    /** `set`: writes the value (creating a bare entry for an unknown key), then saves. */
    method Set(name: string, value: Value)
      modifies this, storage
      ensures options == Assign(old(options), name, value)
      ensures defaults == old(defaults)
      ensures storage.blobs == old(storage.blobs)[storageKey := SimpleValues(options)]
    {
      if name !in options {
        options := options[name := Bare(value)];
      }
      options := options[name := options[name].(value := value)];
      Save();
    }

    /** `load`: starts again from the defaults and takes each stored value that
        is truthy and whose key the defaults know. A missing blob leaves the
        defaults. The storage is not written. */
    method Load()
      modifies this
      ensures defaults == old(defaults)
      ensures options == Loaded(defaults, storage.Fetch(storageKey))
    {
      options := defaults;
      if storageKey !in storage.blobs {
        return;
      }
      var loaded := storage.blobs[storageKey];
      var todo := loaded.Keys;
      while todo != {}
        invariant todo <= loaded.Keys
        invariant defaults == old(defaults)
        invariant options.Keys == defaults.Keys
        invariant forall k :: k in defaults ==>
          options[k] == if k in loaded && k !in todo && IsTruthy(loaded[k])
                        then defaults[k].(value := loaded[k]) else defaults[k]
        decreases todo
      {
        var k :| k in todo;
        var v := loaded[k];
        if IsTruthy(v) && k in options {
          options := options[k := options[k].(value := v)];
        }
        todo := todo - {k};
      }
    }

    /** `reset`: the live table becomes the defaults, which are then saved. */
    method Reset()
      modifies this, storage
      ensures options == defaults && defaults == old(defaults)
      ensures storage.blobs == old(storage.blobs)[storageKey := SimpleValues(defaults)]
    {
      options := defaults;
      Save();
    }
  }

  /** The example plugin's use of the store: construct, load, set, and a
      reset followed by a load. */
  method ExampleUsage(store: PluginStorage)
    modifies store
  {
    var schema := map[
      "text" := Bare(Str("Text")).(kind := Some("text")),
      "toggle" := Bare(Bool(true)).(kind := Some("toggle"))];
    var plugin := new OptionsPlugin("Example", Some("options-test"), Some(schema), store);
    assert plugin.storageKey == "options-test";
    plugin.Load();
    plugin.Set("text", Str("New value"));
    var text := plugin.Get("text");
    assert text == Some(Str("New value"));
    assert store.blobs["options-test"]["text"] == Str("New value");
    plugin.Set("toggle", Bool(false));
    plugin.Load();
    var toggle := plugin.Get("toggle");
    assert toggle == Some(Bool(true));
    plugin.Reset();
    plugin.Load();
    LoadAfterReset(plugin.defaults);
    assert plugin.options == plugin.defaults;
  }
}
